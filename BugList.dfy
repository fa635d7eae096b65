/**
  The "bugs assigned to me" screen: the query that turns the fetched bugs into the visible
  page (status, priority and text filters, an optional column sort, pagination), the
  statistics header, and the screen state its handlers change, including the
  resolve-bug dialog with its past-deadline delay-reason rule.
 */
module BugList {
  import opened Common
  import opened Text
  import opened Sequences
  import opened Sorting
  import opened Paging

  /**
    A bug as the screen reads it. The text fields read through `?.` may be missing;
    `status` is read without it. `deadline` is a timestamp.
   */
  datatype Bug = Bug(
    bugId: Option<string>,
    title: Option<string>,
    description: Option<string>,
    taskRef: Option<string>,
    status: string,
    priority: string,
    deadline: int)

  /** The sortable columns: `bug_id`, `title`, `status`, `priority`. */
  datatype BugColumn = BugIdColumn | TitleColumn | StatusColumn | PriorityColumn

  /** The filter selection: `searchTerm`, `selectedStatus`, `selectedPriority`. */
  datatype Criteria = Criteria(searchTerm: string, selectedStatus: string, selectedPriority: string)

  /** `bug[sortField] || ""`. */
  function SortKey(b: Bug, column: BugColumn): string {
    match column
    case BugIdColumn => b.bugId.GetOr("")
    case TitleColumn => b.title.GetOr("")
    case StatusColumn => b.status
    case PriorityColumn => b.priority
  }

  // ----- The three filter conditions -----

  predicate StatusIs(b: Bug, status: string) {
    Lower(b.status) == status
  }

  predicate StatusPasses(b: Bug, c: Criteria) {
    c.selectedStatus == "all" || StatusIs(b, c.selectedStatus)
  }

  predicate PriorityPasses(b: Bug, c: Criteria) {
    c.selectedPriority == "all" || b.priority == c.selectedPriority
  }

  /** `field?.toLowerCase().includes(term)`. */
  predicate FieldHas(field: Option<string>, term: string) {
    field.Some? && Includes(Lower(field.value), term)
  }

  /** Some searched field of `b` contains the (already lower-cased) `term`. */
  predicate SearchHit(b: Bug, term: string) {
    FieldHas(b.bugId, term) || FieldHas(b.title, term) || FieldHas(b.description, term) || FieldHas(b.taskRef, term)
  }

  predicate SearchPasses(b: Bug, c: Criteria) {
    IsBlank(c.searchTerm) || SearchHit(b, Lower(c.searchTerm))
  }

  /** The three conditions together. */
  predicate Matches(b: Bug, c: Criteria) {
    StatusPasses(b, c) && PriorityPasses(b, c) && SearchPasses(b, c)
  }

  /** The tests of the three filter steps, and of all three at once, as function values. */
  function StatusStep(status: string): Bug -> bool {
    (b: Bug) => StatusIs(b, status)
  }

  function PriorityStep(priority: string): Bug -> bool {
    (b: Bug) => b.priority == priority
  }

  function SearchStep(term: string): Bug -> bool {
    (b: Bug) => SearchHit(b, term)
  }

  function MatchesAll(c: Criteria): Bug -> bool {
    (b: Bug) => Matches(b, c)
  }

  /** The sort key of a column, as a function value. */
  function ByColumn(column: BugColumn): Bug -> string {
    (b: Bug) => SortKey(b, column)
  }

  /** The filter chain of `filteredAndSortedBugs`, one step at a time as the screen runs it. */
  function FilterBugs(bugs: seq<Bug>, c: Criteria): seq<Bug> {
    var byStatus := if c.selectedStatus != "all" then Filter(bugs, StatusStep(c.selectedStatus)) else bugs;
    var byPriority := if c.selectedPriority != "all" then Filter(byStatus, PriorityStep(c.selectedPriority)) else byStatus;
    if !IsBlank(c.searchTerm) then Filter(byPriority, SearchStep(Lower(c.searchTerm))) else byPriority
  }

  /** `filteredAndSortedBugs()`: the filtered bugs, sorted on a copy only when a column is chosen. */
  function FilteredAndSortedBugs(bugs: seq<Bug>, c: Criteria, sortField: Option<BugColumn>, dir: Direction): seq<Bug> {
    var filtered := FilterBugs(bugs, c);
    match sortField
    case Some(column) => SortBy(filtered, ByColumn(column), dir)
    case None => filtered
  }

  /** The step-by-step chain is a single filter by the conjunction of the three conditions. */
  lemma FilterBugsIsConjunction(bugs: seq<Bug>, c: Criteria)
    ensures FilterBugs(bugs, c) == Filter(bugs, MatchesAll(c))
  {
    var p1 := (b: Bug) => StatusPasses(b, c);
    var p2 := (b: Bug) => PriorityPasses(b, c);
    var p3 := (b: Bug) => SearchPasses(b, c);
    var p12 := (b: Bug) => StatusPasses(b, c) && PriorityPasses(b, c);

    var byStatus := if c.selectedStatus != "all" then Filter(bugs, StatusStep(c.selectedStatus)) else bugs;
    if c.selectedStatus != "all" {
      FilterCongruent(bugs, StatusStep(c.selectedStatus), p1);
    } else {
      FilterKeepsAll(bugs, p1);
    }
    assert byStatus == Filter(bugs, p1);

    var byPriority := if c.selectedPriority != "all" then Filter(byStatus, PriorityStep(c.selectedPriority)) else byStatus;
    if c.selectedPriority != "all" {
      FilterCongruent(byStatus, PriorityStep(c.selectedPriority), p2);
    } else {
      FilterKeepsAll(byStatus, p2);
    }
    assert byPriority == Filter(byStatus, p2);

    if !IsBlank(c.searchTerm) {
      FilterCongruent(byPriority, SearchStep(Lower(c.searchTerm)), p3);
    } else {
      FilterKeepsAll(byPriority, p3);
    }
    assert FilterBugs(bugs, c) == Filter(byPriority, p3);

    FilterFusion(bugs, p1, p2, p12);
    FilterFusion(bugs, p12, p3, MatchesAll(c));
  }

  /** With no sort column the visible rows are the matching bugs in their fetched order. */
  lemma UnsortedQueryKeepsOrder(bugs: seq<Bug>, c: Criteria, dir: Direction)
    ensures FilteredAndSortedBugs(bugs, c, None, dir) == Filter(bugs, MatchesAll(c))
    ensures IsSubsequence(FilteredAndSortedBugs(bugs, c, None, dir), bugs)
  {
    FilterBugsIsConjunction(bugs, c);
    FilterIsSubsequence(bugs, MatchesAll(c));
  }

  /** A bug is a visible row exactly when it was fetched and passes all three filters. */
  lemma QueryMembership(bugs: seq<Bug>, c: Criteria, sortField: Option<BugColumn>, dir: Direction, b: Bug)
    ensures b in FilteredAndSortedBugs(bugs, c, sortField, dir) <==> b in bugs && Matches(b, c)
  {
    FilterBugsIsConjunction(bugs, c);
    var filtered := FilterBugs(bugs, c);
    var r := FilteredAndSortedBugs(bugs, c, sortField, dir);
    assert multiset(r) == multiset(filtered);
    assert b in r <==> b in multiset(r);
    assert b in filtered <==> b in multiset(filtered);
    if b in bugs && Matches(b, c) {
      var i :| 0 <= i < |bugs| && bugs[i] == b;
    }
  }

  /** With a sort column the rows are a permutation of the matching bugs, ordered by that column. */
  lemma SortedQueryIsOrderedPermutation(bugs: seq<Bug>, c: Criteria, column: BugColumn, dir: Direction)
    ensures multiset(FilteredAndSortedBugs(bugs, c, Some(column), dir)) == multiset(Filter(bugs, MatchesAll(c)))
    ensures SortedBy(FilteredAndSortedBugs(bugs, c, Some(column), dir), ByColumn(column), dir)
  {
    FilterBugsIsConjunction(bugs, c);
  }

  /** The number of rows depends only on the filters, never on the sort. */
  lemma RowCountIgnoresSort(bugs: seq<Bug>, c: Criteria, sortField: Option<BugColumn>, dir: Direction)
    ensures |FilteredAndSortedBugs(bugs, c, sortField, dir)| == Count(bugs, MatchesAll(c))
  {
    FilterBugsIsConjunction(bugs, c);
    if sortField.Some? {
      SortKeepsLength(FilterBugs(bugs, c), ByColumn(sortField.value), dir);
    }
  }

  /** The search lower-cases the term, so the term's letter case never changes the rows. */
  lemma SearchIgnoresTermCase(b: Bug, c: Criteria)
    ensures SearchPasses(b, c) == SearchPasses(b, c.(searchTerm := Lower(c.searchTerm)))
  {
    LowerKeepsBlank(c.searchTerm);
    LowerIdempotent(c.searchTerm);
  }

  // ----- Statistics header -----

  /** `bugStats`: counts over the whole fetched collection, ignoring the filters. */
  datatype BugStats = BugStats(total: nat, open: nat, resolved: nat, highPriority: nat, mediumPriority: nat, lowPriority: nat)

  function Stats(bugs: seq<Bug>): BugStats {
    BugStats(
      |bugs|,
      Count(bugs, (b: Bug) => Lower(b.status) == "open"),
      Count(bugs, (b: Bug) => Lower(b.status) == "resolved"),
      Count(bugs, (b: Bug) => b.priority == "High"),
      Count(bugs, (b: Bug) => b.priority == "Medium"),
      Count(bugs, (b: Bug) => b.priority == "Low"))
  }

  /** No bug is counted twice: the status counts, and the priority counts, never exceed the total. */
  lemma StatsBounded(bugs: seq<Bug>)
    ensures Stats(bugs).open + Stats(bugs).resolved <= Stats(bugs).total
    ensures Stats(bugs).highPriority + Stats(bugs).mediumPriority + Stats(bugs).lowPriority <= Stats(bugs).total
  {
    var open := (b: Bug) => Lower(b.status) == "open";
    var resolved := (b: Bug) => Lower(b.status) == "resolved";
    CountDisjoint(bugs, open, resolved, (b: Bug) => open(b) || resolved(b));
    var high := (b: Bug) => b.priority == "High";
    var medium := (b: Bug) => b.priority == "Medium";
    var low := (b: Bug) => b.priority == "Low";
    var highOrMedium := (b: Bug) => high(b) || medium(b);
    CountDisjoint(bugs, high, medium, highOrMedium);
    CountDisjoint(bugs, highOrMedium, low, (b: Bug) => highOrMedium(b) || low(b));
  }

  // ----- Resolving a bug -----

  /** The `resolveBug` payload: `{ bugId, ...(isPastDeadline && { delayReason }) }`. */
  datatype ResolveRequest = ResolveRequest(bugId: Option<string>, delayReason: Option<string>)

  /** What `handleResolveBug` decides before it dispatches anything. */
  datatype ResolveDecision = NoBugSelected | DelayReasonMissing | Send(request: ResolveRequest)

  predicate PastDeadline(b: Bug, now: int) {
    now > b.deadline
  }

  /** The guards of `handleResolveBug` and the payload it builds. */
  function DecideResolve(selected: Option<Bug>, bugId: Option<string>, delayReason: string, now: int): (d: ResolveDecision)
    ensures d.NoBugSelected? <==> selected.None?
    ensures d.DelayReasonMissing? <==> selected.Some? && PastDeadline(selected.value, now) && IsBlank(delayReason)
    ensures d.Send? ==> d.request.bugId == bugId
    ensures d.Send? ==> (d.request.delayReason.Some? <==> PastDeadline(selected.value, now))
    ensures d.Send? && d.request.delayReason.Some? ==> d.request.delayReason.value == delayReason
  {
    match selected
    case None => NoBugSelected
    case Some(bug) =>
      var isPastDeadline := PastDeadline(bug, now);
      if isPastDeadline && IsBlank(delayReason) then DelayReasonMissing
      else Send(ResolveRequest(bugId, if isPastDeadline then Some(delayReason) else None))
  }

  /** A late resolve request never goes out without a non-blank reason. */
  lemma LateRequestHasReason(selected: Option<Bug>, bugId: Option<string>, delayReason: string, now: int)
    requires DecideResolve(selected, bugId, delayReason, now).Send?
    requires PastDeadline(selected.value, now)
    ensures DecideResolve(selected, bugId, delayReason, now).request.delayReason == Some(delayReason)
    ensures !IsBlank(delayReason)
  {
  }

  /** Filling in a reason turns a refused late resolve into a request that carries it. */
  lemma ReasonUnblocksResolve(bug: Bug, bugId: Option<string>, blank: string, reason: string, now: int)
    requires DecideResolve(Some(bug), bugId, blank, now) == DelayReasonMissing
    requires !IsBlank(reason)
    ensures DecideResolve(Some(bug), bugId, reason, now) == Send(ResolveRequest(bugId, Some(reason)))
  {
  }

  /** The state of the screen that its handlers change. */
  class BugListScreen {
    var bugs: seq<Bug>
    var searchTerm: string
    var selectedStatus: string
    var selectedPriority: string
    var sortField: Option<BugColumn>
    var sortDirection: Direction
    var currentPage: nat
    var itemsPerPage: nat
    /** `parseInt(goToPage, 10)`: `None` when the input is empty or not a number. */
    var goToPage: Option<int>
    var selectedBug: Option<Bug>
    var isModalOpen: bool
    var delayReason: string

    /** Pages count from 1, a page holds at least one row, and the dialog is open exactly when a bug is selected. */
    ghost predicate Valid()
      reads this`currentPage, this`itemsPerPage, this`isModalOpen, this`selectedBug
    {
      currentPage >= 1 && itemsPerPage > 0 && (isModalOpen <==> selectedBug.Some?)
    }

    function Filters(): Criteria
      reads this`searchTerm, this`selectedStatus, this`selectedPriority
    {
      Criteria(searchTerm, selectedStatus, selectedPriority)
    }

    /** `sortedBugs`. */
    function Rows(): seq<Bug>
      reads this`bugs, this`searchTerm, this`selectedStatus, this`selectedPriority, this`sortField, this`sortDirection
    {
      FilteredAndSortedBugs(bugs, Filters(), sortField, sortDirection)
    }

    /** `totalPages`. */
    function PageCount(): nat
      reads this`bugs, this`searchTerm, this`selectedStatus, this`selectedPriority, this`sortField, this`sortDirection, this`itemsPerPage
      requires itemsPerPage > 0
    {
      TotalPages(|Rows()|, itemsPerPage)
    }

    /** `currentBugs`: the rows on the current page. */
    function CurrentBugs(): seq<Bug>
      reads this`bugs, this`searchTerm, this`selectedStatus, this`selectedPriority, this`sortField, this`sortDirection, this`currentPage, this`itemsPerPage
      requires currentPage >= 1 && itemsPerPage > 0
    {
      Page(Rows(), currentPage, itemsPerPage)
    }

    constructor ()
      ensures Valid()
      ensures bugs == [] && searchTerm == "" && selectedStatus == "all" && selectedPriority == "all"
      ensures sortField == None && sortDirection == Asc && currentPage == 1 && itemsPerPage == 8
      ensures goToPage == None && selectedBug == None && !isModalOpen && delayReason == ""
    {
      bugs, searchTerm, selectedStatus, selectedPriority := [], "", "all", "all";
      sortField, sortDirection, currentPage, itemsPerPage := None, Asc, 1, 8;
      goToPage, selectedBug, isModalOpen, delayReason := None, None, false, "";
    }

    /** The store answered `fetchBugByEmployeeId`: the collection is replaced wholesale. */
    method ReceiveBugs(fetched: seq<Bug>)
      requires Valid()
      modifies this`bugs
      ensures Valid() && bugs == fetched
    {
      bugs := fetched;
    }

    /** Typing in the search box; a changed term sends the screen back to page 1. */
    method SetSearchTerm(term: string)
      requires Valid()
      modifies this`searchTerm, this`currentPage
      ensures Valid() && searchTerm == term
      ensures currentPage == if term != old(searchTerm) then 1 else old(currentPage)
    {
      if term != searchTerm {
        currentPage := 1;
      }
      searchTerm := term;
    }

    /** `handleStatusFilter`; a changed selection sends the screen back to page 1. */
    method HandleStatusFilter(status: string)
      requires Valid()
      modifies this`selectedStatus, this`currentPage
      ensures Valid() && selectedStatus == status
      ensures currentPage == if status != old(selectedStatus) then 1 else old(currentPage)
    {
      if status != selectedStatus {
        currentPage := 1;
      }
      selectedStatus := status;
    }

    /** `handlePriorityFilter`; a changed selection sends the screen back to page 1. */
    method HandlePriorityFilter(priority: string)
      requires Valid()
      modifies this`selectedPriority, this`currentPage
      ensures Valid() && selectedPriority == priority
      ensures currentPage == if priority != old(selectedPriority) then 1 else old(currentPage)
    {
      if priority != selectedPriority {
        currentPage := 1;
      }
      selectedPriority := priority;
    }

    /** Choosing the page size; a changed size sends the screen back to page 1. */
    method SetItemsPerPage(perPage: nat)
      requires Valid() && perPage > 0
      modifies this`itemsPerPage, this`currentPage
      ensures Valid() && itemsPerPage == perPage
      ensures currentPage == if perPage != old(itemsPerPage) then 1 else old(currentPage)
    {
      if perPage != itemsPerPage {
        currentPage := 1;
      }
      itemsPerPage := perPage;
    }

    /** Typing in the go-to-page box. */
    method SetGoToPage(input: Option<int>)
      requires Valid()
      modifies this`goToPage
      ensures Valid() && goToPage == input
    {
      goToPage := input;
    }

    /** `handlePageChange`: only a page in `1..totalPages` is accepted, and it is never an empty page; otherwise nothing changes. */
    method HandlePageChange(pageNumber: int) returns (accepted: bool)
      requires Valid()
      modifies this`currentPage
      ensures Valid()
      ensures accepted <==> 1 <= pageNumber <= old(PageCount())
      ensures currentPage == if accepted then pageNumber else old(currentPage)
      ensures accepted ==> CurrentBugs() != []
    {
      accepted := 1 <= pageNumber <= PageCount();
      if accepted {
        currentPage := pageNumber;
        PageNonEmpty(Rows(), currentPage, itemsPerPage);
      }
    }

    /** `handleGoToPage`: the same bound; the input box is cleared only when the page is accepted. */
    method HandleGoToPage() returns (accepted: bool)
      requires Valid()
      modifies this`currentPage, this`goToPage
      ensures Valid()
      ensures accepted <==> old(goToPage).Some? && 1 <= old(goToPage).value <= old(PageCount())
      ensures accepted ==> currentPage == old(goToPage).value && goToPage == None
      ensures !accepted ==> currentPage == old(currentPage) && goToPage == old(goToPage)
    {
      accepted := goToPage.Some? && 1 <= goToPage.value <= PageCount();
      if accepted {
        currentPage := goToPage.value;
        goToPage := None;
      }
    }

    /** `handleSort`: the same column flips the direction, a new column sorts ascending. The page is kept. */
    method HandleSort(column: BugColumn)
      requires Valid()
      modifies this`sortField, this`sortDirection
      ensures Valid() && sortField == Some(column)
      ensures sortDirection == if old(sortField) == Some(column) then old(sortDirection).Flip() else Asc
    {
      if sortField == Some(column) {
        sortDirection := sortDirection.Flip();
      } else {
        sortField := Some(column);
        sortDirection := Asc;
      }
    }

    /** `clearFilters`: back to no search, all statuses and priorities, and no sort. */
    method ClearFilters()
      requires Valid()
      modifies this`searchTerm, this`selectedStatus, this`selectedPriority, this`sortField, this`sortDirection, this`currentPage
      ensures Valid()
      ensures searchTerm == "" && selectedStatus == "all" && selectedPriority == "all"
      ensures sortField == None && sortDirection == Asc
      ensures currentPage ==
        if old(searchTerm) != "" || old(selectedStatus) != "all" || old(selectedPriority) != "all" then 1
        else old(currentPage)
    {
      SetSearchTerm("");
      HandleStatusFilter("all");
      HandlePriorityFilter("all");
      sortField := None;
      sortDirection := Asc;
    }

    /** `handleViewClick`: opens the dialog on `bug` with an empty delay reason. */
    method HandleViewClick(bug: Bug)
      requires Valid()
      modifies this`selectedBug, this`delayReason, this`isModalOpen
      ensures Valid() && selectedBug == Some(bug) && delayReason == "" && isModalOpen
    {
      selectedBug := Some(bug);
      delayReason := "";
      isModalOpen := true;
    }

    /** `handleModalClose`. */
    method HandleModalClose()
      requires Valid()
      modifies this`selectedBug, this`delayReason, this`isModalOpen
      ensures Valid() && selectedBug == None && delayReason == "" && !isModalOpen
    {
      isModalOpen := false;
      selectedBug := None;
      delayReason := "";
    }

    /** Typing in the delay-reason box. */
    method SetDelayReason(reason: string)
      requires Valid()
      modifies this`delayReason
      ensures Valid() && delayReason == reason
    {
      delayReason := reason;
    }

    /**
      `handleResolveBug`: decides, sends the request when allowed, and on success asks for a
      fresh collection and closes the dialog. A refusal or a failed request changes nothing.
     */
    method HandleResolveBug(bugId: Option<string>, now: int, outcome: Outcome) returns (decision: ResolveDecision, refetch: bool)
      requires Valid()
      requires selectedBug.Some? ==> bugId == selectedBug.value.bugId
      modifies this`selectedBug, this`delayReason, this`isModalOpen
      ensures Valid()
      ensures decision.Send? ==> old(selectedBug).Some? && decision.request.bugId == old(selectedBug).value.bugId
      ensures decision == DecideResolve(old(selectedBug), bugId, old(delayReason), now)
      ensures refetch <==> decision.Send? && outcome == Succeeded
      ensures refetch ==> selectedBug == None && delayReason == "" && !isModalOpen
      ensures !refetch ==> selectedBug == old(selectedBug) && delayReason == old(delayReason) && isModalOpen == old(isModalOpen)
    {
      decision := DecideResolve(selectedBug, bugId, delayReason, now);
      refetch := decision.Send? && outcome == Succeeded;
      if refetch {
        HandleModalClose();
      }
    }
  }
}
