# Blueprint front end: employee bug and task screens, task view, minutes-of-meeting slice

This project is a Dafny model of four parts of the Blueprint project-management front end:

- **"My bugs" screen** (`src/modules/bug/AllBugByEmployeeId.js`). It covers:
  - the query that turns the fetched bugs into the visible page: a status filter (lower-cased), an exact priority filter and a text search over four fields, then an optional column sort run on a copy, then pagination;
  - the statistics header;
  - the resolve dialog, which demands a delay reason once the bug's deadline has passed.
- **"My tasks" screen** (`src/modules/TaskModules/EmployeeTaskList.js`). It covers the same pipeline with exact status matching, the task statistics, and the edit dialog. Completed tasks never open in that dialog. A late task's save carries a delay reason.
- **Task view** (`src/modules/task/ViewTask.js`). It covers:
  - who sees the Report-Bug and Mark-as-Resolved buttons;
  - the bug-report form and its guard chain;
  - the `actionTrigger` counter, whose every change makes the view fetch the task again.
- **`projectMom` store slice** (`src/features/projectmomSlice.js`). It covers the loading, result and error fields that the create-minutes request and the reset action assign.

Each React component becomes a class. Its `useState` variables are the class's fields, and each handler is a method that names in `modifies` exactly the fields it sets.

- **Effects.** The effect that resets the page to 1 fires only when one of its dependencies actually changes value. So each setter in its dependency list resets the page only when the new value differs from the old one.
- **Derived values.** Values the component recomputes on every render (`filteredAndSortedBugs`, `totalPages`, `currentBugs`) are functions of the fields.
- **Specifications.** The JavaScript built-ins the code relies on get pure definitions with their own proved properties. These are `trim`, `toLowerCase`, `includes`, string `<`, `Array.prototype.filter`, the comparator sort, `Math.ceil` of a division, and `slice`. Each handler's contract is stated in terms of them.

Modules, one per file: `Common` (Option, request outcome, sort direction), `Text`, `Sequences`, `Sorting`, `Paging`, `BugList`, `TaskList`, `TaskView`, `ProjectMoM`.

Inputs the code takes from the outside world become parameters:

- the current time `now` (milliseconds), and the start of today `todayStart`;
- the store's answer to a request, as an `Outcome`: `Succeeded` or `Failed`;
- the fetched collections, through `ReceiveBugs` and `ReceiveTasks`;
- `parseInt` of the go-to-page box, as an `Option<int>`, where `None` means NaN.

## Model

| member | source | states |
|---|---|---|
| Text.TrimStart | src/modules/bug/AllBugByEmployeeId.js:151 | the result is a suffix of the input, every dropped char is JavaScript white space, and the result does not start with white space |
| Text.TrimEnd | src/modules/bug/AllBugByEmployeeId.js:151 | the result is a prefix of the input, every dropped char is white space, and the result does not end with white space |
| Text.BlankIffAllSpace | src/modules/bug/AllBugByEmployeeId.js:151 | `s.trim() !== ""` fails exactly when every char of `s` is white space |
| Text.Trim | src/modules/bug/AllBugByEmployeeId.js:151 | `trim()` drops leading and trailing white space: the prefix and suffix contracts of `TrimStart` and `TrimEnd` |
| Text.IsBlank | src/modules/bug/AllBugByEmployeeId.js:151 | `s.trim() !== ""` fails exactly when every char is white space, by `BlankIffAllSpace` |
| Text.Lower | src/modules/bug/AllBugByEmployeeId.js:152 | `toLowerCase` keeps the length and maps each char on its own: `A`-`Z` to `a`-`z`, everything else unchanged |
| Text.LowerIdempotent | src/modules/bug/AllBugByEmployeeId.js:152 | lower-casing twice is lower-casing once |
| Text.LowerKeepsBlank | src/modules/bug/AllBugByEmployeeId.js:151-152 | lower-casing a term does not change whether it is blank |
| Text.Includes | src/modules/bug/AllBugByEmployeeId.js:155-158 | `hay.includes(needle)` holds exactly when the needle occurs at some index of `hay` |
| Text.Less | src/modules/bug/AllBugByEmployeeId.js:168 | the string `<` of the comparator: a strict total order by `LessIrreflexive`, `LessAsymmetric`, `LessTransitive` and `LessTrichotomy` |
| Text.LessIrreflexive | src/modules/bug/AllBugByEmployeeId.js:168 | no string is below itself |
| Text.LessAsymmetric | src/modules/bug/AllBugByEmployeeId.js:168 | no two strings are each below the other |
| Text.LessTransitive | src/modules/bug/AllBugByEmployeeId.js:168 | the string `<` of the comparator is transitive |
| Text.LessTrichotomy | src/modules/bug/AllBugByEmployeeId.js:168 | for two strings exactly one of `a < b`, `a == b`, `b < a` holds: at least one, no string is below itself, and no two strings are below each other |
| Text.NotAfterTotal | src/modules/bug/AllBugByEmployeeId.js:166-170 | any two sort keys are ordered one way or the other, so the comparator is total |
| Text.NotAfterTransitive | src/modules/bug/AllBugByEmployeeId.js:166-170 | the non-strict order the comparator sorts by is transitive |
| Sequences.Filter | src/modules/bug/AllBugByEmployeeId.js:141-159 | `filter` keeps only elements that pass, keeps every element that passes, and never grows the list |
| Sequences.FilterIsSubsequence | src/modules/bug/AllBugByEmployeeId.js:141-159 | `filter` keeps the survivors in their original order |
| Sequences.FilterFusion | src/modules/bug/AllBugByEmployeeId.js:141-159 | two filters in a row are one filter by the conjunction |
| Sequences.CountDisjoint | src/modules/bug/AllBugByEmployeeId.js:121-134 | the counts of two exclusive conditions add up to the count of their disjunction |
| Sorting.SortBy | src/modules/bug/AllBugByEmployeeId.js:163-172 | the sorted copy is a permutation of the filtered list, ordered by the column's key in the chosen direction |
| Sorting.SortSortedIsIdentity | src/modules/bug/AllBugByEmployeeId.js:163-172 | sorting a list already in order returns it unchanged |
| Sorting.SortIdempotent | src/modules/bug/AllBugByEmployeeId.js:163-172 | sorting the sorted copy again changes nothing |
| Paging.TotalPagesIsCeiling | src/modules/bug/AllBugByEmployeeId.js:180 | `Math.ceil(n / k)` is the fewest pages of `k` rows that hold `n` rows, and is 0 only for no rows |
| Paging.PageInRange | src/modules/bug/AllBugByEmployeeId.js:180-183 | a page in `1..totalPages` starts at row `(page-1)*k`, ends at `page*k` or at the last row, and is not empty |
| Paging.PageBeyondLast | src/modules/bug/AllBugByEmployeeId.js:181-183 | a page past `totalPages` is empty |
| Paging.PagesReassemble | src/modules/bug/AllBugByEmployeeId.js:180-183 | pages 1 to `totalPages`, laid end to end, give back every row once, in order |
| Paging.TwentyOneRowsByEight | src/modules/bug/AllBugByEmployeeId.js:97 | with the default 8 rows per page, 21 rows make 3 pages and page 4 is refused |
| Paging.TotalPages | src/modules/bug/AllBugByEmployeeId.js:180 | `Math.ceil(count / perPage)`, the fewest pages that hold all rows, by `TotalPagesIsCeiling` |
| Paging.Slice | src/modules/bug/AllBugByEmployeeId.js:183 | `slice` with both ends clamped to the length: never longer than the list |
| Paging.Page | src/modules/bug/AllBugByEmployeeId.js:181-183 | the rows from `(page-1)*perPage` up to `page*perPage`: at most `perPage` rows, the right ones by `PageInRange`, none past the last page by `PageBeyondLast` |
| BugList.FilterBugsIsConjunction | src/modules/bug/AllBugByEmployeeId.js:138-160 | the three filter steps, each applied only when active, equal a single filter by status, priority and search together |
| BugList.UnsortedQueryKeepsOrder | src/modules/bug/AllBugByEmployeeId.js:160-175 | with no sort column the rows are the matching bugs in the order fetched |
| BugList.QueryMembership | src/modules/bug/AllBugByEmployeeId.js:138-175 | a bug is a visible row exactly when it was fetched and passes all three filters |
| BugList.SortedQueryIsOrderedPermutation | src/modules/bug/AllBugByEmployeeId.js:160-172 | with a sort column the rows are a permutation of the matching bugs, ordered by that column |
| BugList.RowCountIgnoresSort | src/modules/bug/AllBugByEmployeeId.js:138-180 | the number of rows, hence `totalPages`, depends on the filters alone |
| BugList.SearchIgnoresTermCase | src/modules/bug/AllBugByEmployeeId.js:151-152 | the letter case of the search term never changes which bugs pass |
| BugList.FilterBugs | src/modules/bug/AllBugByEmployeeId.js:138-160 | the three filter steps, each applied only when active; by `FilterBugsIsConjunction` and `QueryMembership` it keeps exactly the fetched bugs that match, in their order |
| BugList.FilteredAndSortedBugs | src/modules/bug/AllBugByEmployeeId.js:138-176 | the visible rows: the matches in fetched order without a sort column (`UnsortedQueryKeepsOrder`), an ordered permutation of them with one (`SortedQueryIsOrderedPermutation`) |
| BugList.Stats | src/modules/bug/AllBugByEmployeeId.js:121-135 | `bugStats`: the total and the counts by lower-cased status and by priority, bounded by `StatsBounded` |
| BugList.StatsBounded | src/modules/bug/AllBugByEmployeeId.js:121-135 | open plus resolved never exceeds the total, nor do high plus medium plus low |
| BugList.DecideResolve | src/modules/bug/AllBugByEmployeeId.js:214-226 | nothing happens without a selected bug; a late bug with a blank reason is refused; otherwise the payload carries `bugId`, and carries the reason exactly when late |
| BugList.LateRequestHasReason | src/modules/bug/AllBugByEmployeeId.js:217-226 | a resolve request for a late bug always carries a non-blank reason |
| BugList.ReasonUnblocksResolve | src/modules/bug/AllBugByEmployeeId.js:217-226 | filling in a non-blank reason turns the refused late resolve into a request carrying it |
| BugList.BugListScreen.Rows | src/modules/bug/AllBugByEmployeeId.js:179 | `sortedBugs`: `FilteredAndSortedBugs` of the screen's collection and filter fields |
| BugList.BugListScreen.PageCount | src/modules/bug/AllBugByEmployeeId.js:180 | `totalPages` of the visible rows at the screen's page size |
| BugList.BugListScreen.CurrentBugs | src/modules/bug/AllBugByEmployeeId.js:181-183 | `currentBugs`: page `currentPage` of the visible rows; `HandlePageChange` keeps it non-empty whenever it moves |
| BugList.BugListScreen.constructor | src/modules/bug/AllBugByEmployeeId.js:91-101 | the initial state: empty search, `all` filters, no sort, ascending, page 1, 8 per page, no dialog |
| BugList.BugListScreen.ReceiveBugs | src/modules/bug/AllBugByEmployeeId.js:103-110 | the fetched collection replaces the old one; nothing else changes |
| BugList.BugListScreen.SetSearchTerm | src/modules/bug/AllBugByEmployeeId.js:116-118 | sets the term and returns to page 1 exactly when the term changed |
| BugList.BugListScreen.HandleStatusFilter | src/modules/bug/AllBugByEmployeeId.js:248-250 | sets the status and returns to page 1 exactly when it changed |
| BugList.BugListScreen.HandlePriorityFilter | src/modules/bug/AllBugByEmployeeId.js:252-254 | sets the priority and returns to page 1 exactly when it changed |
| BugList.BugListScreen.SetItemsPerPage | src/modules/bug/AllBugByEmployeeId.js:116-118 | sets the page size and returns to page 1 exactly when it changed |
| BugList.BugListScreen.SetGoToPage | src/modules/bug/AllBugByEmployeeId.js:98 | records the parsed go-to-page input; nothing else changes |
| BugList.BugListScreen.HandlePageChange | src/modules/bug/AllBugByEmployeeId.js:185-189 | moves to the page exactly when it lies in `1..totalPages`, and the page moved to is never empty |
| BugList.BugListScreen.HandleGoToPage | src/modules/bug/AllBugByEmployeeId.js:191-200 | a number in `1..totalPages` becomes the page and clears the box; anything else changes nothing |
| BugList.BugListScreen.HandleSort | src/modules/bug/AllBugByEmployeeId.js:239-246 | the same column flips the direction; another column becomes the sort column, ascending |
| BugList.BugListScreen.ClearFilters | src/modules/bug/AllBugByEmployeeId.js:256-262 | resets search, filters and sort, and returns to page 1 exactly when a filter value changed |
| BugList.BugListScreen.HandleViewClick | src/modules/bug/AllBugByEmployeeId.js:202-206 | opens the dialog on the bug with an empty reason |
| BugList.BugListScreen.HandleModalClose | src/modules/bug/AllBugByEmployeeId.js:208-212 | closes the dialog, clears the selection and the reason |
| BugList.BugListScreen.SetDelayReason | src/modules/bug/AllBugByEmployeeId.js:790 | records the typed reason; nothing else changes |
| BugList.BugListScreen.HandleResolveBug | src/modules/bug/AllBugByEmployeeId.js:214-237 | called with the selected bug's id, as the dialog's button does (line 809); decides by `DecideResolve` on the current selection and reason, so a request goes out only for a selected bug and names that bug; only a sent request that succeeds refetches and closes the dialog |
| TaskList.FilterTasksIsConjunction | src/modules/TaskModules/EmployeeTaskList.js:124-146 | the three filter steps equal a single filter by exact status, exact priority and search together |
| TaskList.UnsortedQueryKeepsOrder | src/modules/TaskModules/EmployeeTaskList.js:148-160 | with no sort column the rows are the matching tasks in the order fetched |
| TaskList.QueryMembership | src/modules/TaskModules/EmployeeTaskList.js:124-160 | a task is a visible row exactly when it was fetched and passes all three filters |
| TaskList.SortedQueryIsOrderedPermutation | src/modules/TaskModules/EmployeeTaskList.js:148-157 | with a sort column the rows are a permutation of the matching tasks, ordered by that column |
| TaskList.RowCountIgnoresSort | src/modules/TaskModules/EmployeeTaskList.js:124-164 | the number of rows depends on the filters alone |
| TaskList.TaskIdSearchIsCaseSensitive | src/modules/TaskModules/EmployeeTaskList.js:137-144 | the task number is not lower-cased, so the search term `T1` does not find the task numbered `T1` |
| TaskList.FilterTasks | src/modules/TaskModules/EmployeeTaskList.js:124-144 | the three filter steps, each applied only when active; by `FilterTasksIsConjunction` and `QueryMembership` it keeps exactly the fetched tasks that match, in their order |
| TaskList.FilteredAndSortedTasks | src/modules/TaskModules/EmployeeTaskList.js:124-160 | the visible rows: the matches in fetched order without a sort column (`UnsortedQueryKeepsOrder`), an ordered permutation of them with one (`SortedQueryIsOrderedPermutation`) |
| TaskList.Stats | src/modules/TaskModules/EmployeeTaskList.js:113-121 | `taskStats`: the total and the counts by exact status and by priority, bounded by `StatsBounded` |
| TaskList.StatsBounded | src/modules/TaskModules/EmployeeTaskList.js:113-121 | planned plus in progress plus completed never exceeds the total, nor do the three priority counts |
| TaskList.DeadlinePassed | src/modules/TaskModules/EmployeeTaskList.js:245-247 | `isdeadlinePassed`: the deadline lies strictly before now; it decides whether the save carries a reason (`SaveEditPayload`, `PayloadReasonFollowsReasonBox`) |
| TaskList.EditLocked | src/modules/TaskModules/EmployeeTaskList.js:191 | a completed task; `HandleEditTask` leaves the dialog unchanged for it |
| TaskList.EditCopy | src/modules/TaskModules/EmployeeTaskList.js:192 | the edit copy always has a reason string, keeps an existing one, and differs from the task in nothing else |
| TaskList.SaveEditPayload | src/modules/TaskModules/EmployeeTaskList.js:198-204 | the payload carries the task id and status, and carries the reason (or `''`) exactly when the deadline has passed |
| TaskList.LateSaveMayHaveEmptyReason | src/modules/TaskModules/EmployeeTaskList.js:202-204 | a late task with no reason is still saved, with the empty reason |
| TaskList.PayloadReasonFollowsReasonBox | src/modules/TaskModules/EmployeeTaskList.js:202-204 | the payload carries a reason exactly when `isdeadlinePassed` shows the reason box |
| TaskList.TaskListScreen.Rows | src/modules/TaskModules/EmployeeTaskList.js:163 | `sortedTasks`: `FilteredAndSortedTasks` of the screen's collection and filter fields |
| TaskList.TaskListScreen.PageCount | src/modules/TaskModules/EmployeeTaskList.js:164 | `totalPages` of the visible rows at the screen's page size |
| TaskList.TaskListScreen.CurrentTasks | src/modules/TaskModules/EmployeeTaskList.js:165-167 | `currentTasks`: page `currentPage` of the visible rows; `HandlePageChange` keeps it non-empty whenever it moves |
| TaskList.TaskListScreen.constructor | src/modules/TaskModules/EmployeeTaskList.js:88-97 | the initial state: empty search, `all` filters, no sort, ascending, page 1, 8 per page, nothing under edit |
| TaskList.TaskListScreen.ReceiveTasks | src/modules/TaskModules/EmployeeTaskList.js:99-110 | the fetched collection replaces the old one; nothing else changes |
| TaskList.TaskListScreen.SetSearchTerm | src/modules/TaskModules/EmployeeTaskList.js:106-108 | sets the term and returns to page 1 exactly when it changed |
| TaskList.TaskListScreen.HandleStatusFilter | src/modules/TaskModules/EmployeeTaskList.js:228-230 | sets the status and returns to page 1 exactly when it changed |
| TaskList.TaskListScreen.HandlePriorityFilter | src/modules/TaskModules/EmployeeTaskList.js:232-234 | sets the priority and returns to page 1 exactly when it changed |
| TaskList.TaskListScreen.SetTasksPerPage | src/modules/TaskModules/EmployeeTaskList.js:106-108 | sets the page size and returns to page 1 exactly when it changed |
| TaskList.TaskListScreen.SetGoToPage | src/modules/TaskModules/EmployeeTaskList.js:97 | records the parsed go-to-page input; nothing else changes |
| TaskList.TaskListScreen.HandlePageChange | src/modules/TaskModules/EmployeeTaskList.js:169-173 | moves to the page exactly when it lies in `1..totalPages`, and the page moved to is never empty |
| TaskList.TaskListScreen.HandleGoToPage | src/modules/TaskModules/EmployeeTaskList.js:175-184 | a number in `1..totalPages` becomes the page and clears the box; anything else changes nothing |
| TaskList.TaskListScreen.HandleSort | src/modules/TaskModules/EmployeeTaskList.js:219-226 | the same column flips the direction; another column becomes the sort column, ascending |
| TaskList.TaskListScreen.ClearFilters | src/modules/TaskModules/EmployeeTaskList.js:236-242 | resets search, filters and sort, and returns to page 1 exactly when a filter value changed |
| TaskList.TaskListScreen.HandleEditTask | src/modules/TaskModules/EmployeeTaskList.js:190-194 | a completed task leaves the dialog as it was; any other task is opened as its edit copy |
| TaskList.TaskListScreen.SetEditStatus | src/modules/TaskModules/EmployeeTaskList.js:686-688 | only the status of the task under edit changes |
| TaskList.TaskListScreen.SetEditDelayReason | src/modules/TaskModules/EmployeeTaskList.js:712-716 | only the reason of the task under edit changes |
| TaskList.TaskListScreen.CancelEdit | src/modules/TaskModules/EmployeeTaskList.js:669 | closing or cancelling leaves nothing under edit |
| TaskList.TaskListScreen.HandleSaveEdit | src/modules/TaskModules/EmployeeTaskList.js:196-217 | sends `SaveEditPayload` of the task under edit; success closes the dialog and refetches, failure keeps the edit; with nothing under edit nothing is sent |
| TaskView.IsCpc | src/modules/task/ViewTask.js:642 | the user is loaded and holds the `CPC` position |
| TaskView.IsTeamLead | src/modules/task/ViewTask.js:646 | `task?.teamLeadId === currentUser?.employeeID`, strict equality that tells `undefined`, `null` and a string apart (`TeamLeadIsStrictEquality`) |
| TaskView.CanReportBug | src/modules/task/ViewTask.js:647 | a coordinator or the task's team lead, and the task is completed (`ReportNeedsCompleted`) |
| TaskView.ReportBugVisible | src/modules/task/ViewTask.js:724 | `canReportBug` and the review is not yet resolved |
| TaskView.MarkResolvedVisible | src/modules/task/ViewTask.js:734 | the same test with one more `status === "Completed"`, hence the same as `ReportBugVisible` (`ButtonsShownTogether`) |
| TaskView.TeamLeadIsStrictEquality | src/modules/task/ViewTask.js:646 | the team-lead test holds exactly for equal present ids, for two `undefined` ids, or for two `null` ids |
| TaskView.ButtonsShownTogether | src/modules/task/ViewTask.js:724-734 | the Mark-as-Resolved button is shown exactly when the Report-Bug button is |
| TaskView.ReportNeedsCompleted | src/modules/task/ViewTask.js:642-647 | no one may report a bug on, or resolve, a task that is not completed |
| TaskView.MissingIdsMatch | src/modules/task/ViewTask.js:646-647 | a completed task whose team lead id is missing counts as led by a user whose id is missing the same way (both `undefined`, or both `null`), and shows Report-Bug unless resolved |
| TaskView.NullLeadIsNotUnloadedUser | src/modules/task/ViewTask.js:646-647 | a `null` team lead id does not match a user that is not loaded yet, so without a coordinator no button is shown |
| TaskView.ValidateBugReport | src/modules/task/ViewTask.js:590-603 | refuses blank text first, then a missing deadline, then a deadline before today's midnight, and accepts everything else |
| TaskView.TodayIsAccepted | src/modules/task/ViewTask.js:599-603 | a deadline at today's midnight is accepted; one instant earlier is not |
| TaskView.SubmitDisabled | src/modules/task/ViewTask.js:946 | the Submit button is disabled for a blank text or no deadline; enabled exactly when `handleSubmit` gets past its first two guards (`SubmitEnabledPassesFirstGuards`) |
| TaskView.SubmitEnabledPassesFirstGuards | src/modules/task/ViewTask.js:946 | the Submit button is enabled exactly when the form gets past the text and deadline guards |
| TaskView.WhiteSpaceTitleRefused | src/modules/task/ViewTask.js:591-594 | a title of white space alone is refused like an empty one |
| TaskView.TaskViewScreen.constructor | src/modules/task/ViewTask.js:553-565 | the form starts empty with priority `Medium`; the task is fetched once on mount when an id is present |
| TaskView.TaskViewScreen.OpenModal | src/modules/task/ViewTask.js:578-580 | opens the report dialog |
| TaskView.TaskViewScreen.SetModalOpen | src/modules/task/ViewTask.js:858 | the dialog's own signal sets the flag and keeps the form |
| TaskView.TaskViewScreen.SetBugTitle | src/modules/task/ViewTask.js:873 | records the typed title |
| TaskView.TaskViewScreen.SetBugDescription | src/modules/task/ViewTask.js:884 | records the typed description |
| TaskView.TaskViewScreen.SetBugPriority | src/modules/task/ViewTask.js:893 | records the chosen priority |
| TaskView.TaskViewScreen.SetBugDeadline | src/modules/task/ViewTask.js:926 | records the chosen day |
| TaskView.TaskViewScreen.CloseModal | src/modules/task/ViewTask.js:582-588 | closes the dialog and resets every form field |
| TaskView.TaskViewScreen.BumpActionTrigger | src/modules/task/ViewTask.js:561-565 | each increment of the trigger fetches the task once more when an id is present |
| TaskView.TaskViewScreen.HandleSubmit | src/modules/task/ViewTask.js:590-623 | validates by `ValidateBugReport`; only an accepted form sends `createBug` with the form's values; only a success bumps the trigger and resets the form |
| TaskView.TaskViewScreen.HandleMarkAsResolved | src/modules/task/ViewTask.js:625-640 | always sends the `Resolved` review status for the task; only a success bumps the trigger |
| ProjectMoM.InitialState | src/features/projectmomSlice.js:23-27 | no result, not loading, no error; `Reset` returns to it (`Reduce`) and every error reached from it comes from a rejection (`ErrorComesFromRejection`) |
| ProjectMoM.Reduce | src/features/projectmomSlice.js:29-49 | pending raises loading and clears the error; fulfilled drops loading and stores the payload; rejected drops loading and stores the message; reset restores the initial state; each keeps the fields it does not name |
| ProjectMoM.ResetIdempotent | src/features/projectmomSlice.js:29-33 | resetting twice is resetting once |
| ProjectMoM.PendingThenFulfilled | src/features/projectmomSlice.js:37-44 | a request that starts and succeeds leaves the result, no loading flag and no error |
| ProjectMoM.LoadingTracksLastAction | src/features/projectmomSlice.js:29-49 | from a state that is not loading, the flag is up exactly when the latest action is `pending` |
| ProjectMoM.ErrorComesFromRejection | src/features/projectmomSlice.js:23-49 | from the initial state, an error is always a message some `rejected` action carried |
| ProjectMoM.ProjectMoMSlice.constructor | src/features/projectmomSlice.js:23-27 | the store starts in the initial state |
| ProjectMoM.ProjectMoMSlice.ResetProjectMoMState | src/features/projectmomSlice.js:29-33 | the fields become `Reduce(old, reset)`, the initial state |
| ProjectMoM.ProjectMoMSlice.Pending | src/features/projectmomSlice.js:37-40 | the fields become `Reduce(old, pending)` |
| ProjectMoM.ProjectMoMSlice.Fulfilled | src/features/projectmomSlice.js:41-44 | the fields become `Reduce(old, fulfilled(payload))` |
| ProjectMoM.ProjectMoMSlice.Rejected | src/features/projectmomSlice.js:45-48 | the fields become `Reduce(old, rejected(message))` |

## Left out

- **Rendering.** JSX layout, badges, icons, loading skeletons and toasts are not modelled. Every error and info toast comes with a path on which the model leaves the state unchanged; the success toasts come with the state changes the handlers' contracts state.
- **The network.** The thunks (`fetchBugByEmployeeId`, `resolveBug`, `getAllTaskByEmployeeId`, `updateTaskStatus`, `fetchTaskById`, `createBug`, `updateTaskReviewStatus`, `createProjectMoM`) and their HTTP calls are not modelled. A request becomes a returned payload with an `Outcome` parameter, and a refetch a returned flag or a counter.
- **The `createProjectMoM` thunk body.** The multipart upload and the fallback message on failure are not modelled; only the slice fields it drives are.
- **Dates.** Dates are integer timestamps. An invalid date is not modelled; in JavaScript it makes both deadline comparisons false.
- **The `deadline` format.** The `yyyy-MM-dd` formatting of the `createBug` deadline is not modelled.
- **The bug-deadline date picker.** The date picker of the bug-report dialog (`src/modules/task/ViewTask.js` lines 923-929) disables days before the current instant; that test is not modelled, while the submit guard on the chosen deadline is.
- **Text semantics:**
  - `Text.Lower` maps only `A`-`Z`, not the full Unicode case mapping of `toLowerCase`.
  - String `<` compares `char` values, so the UTF-16 order of surrogate pairs is not modelled.
- **Numeric `task_id`.** A numeric `task_id` sort key is compared as its text, not as a number.
- **Clearing the Redux error.** The `clearErrors` dispatch when the bug screen unmounts is not modelled.
- **Task-list view dialog.** `handleViewTask` and the read-only view dialog (`viewTask`) only display a task and are not modelled.
- **Task view close.** The view's close animation (`isVisible`, `closeViewModal`, `setTimeout(router.back)`) is not modelled, nor is the Retry button on a failed fetch.
- **Missing fetched list.** A store list that is `null` is modelled as the empty sequence, which is how the screens read it.
- **Sorting.SortBy order of equal keys.** It promises some ordered permutation, not the specific order the engine's stable sort gives to equal keys.
- **Out of this model:** `src/components/layout/team-switcher.jsx` and `src/app/(protected)/task/page.jsx` are not part of this model.
