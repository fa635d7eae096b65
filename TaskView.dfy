/**
  The single-task view: who may report a bug on the task or mark its review as resolved,
  the bug-report form with its validation chain, and the `actionTrigger` counter whose
  every change makes the view fetch the task again.
 */
module TaskView {
  import opened Common
  import opened Text

  /**
    A JavaScript value read through optional chaining where the program compares it with
    another such value: `undefined` (the object or the field is missing), `null` (the field
    is present and holds `null`), or a string. `===` tells the three apart.
   */
  datatype IdValue = Undefined | Null | Id(value: string)

  /** The fields of the shown task that the permission checks read (`task?.…`). */
  datatype ShownTask = ShownTask(status: Option<string>, reviewStatus: Option<string>, teamLeadId: IdValue)

  /** The signed-in user's fields (`currentUser?.…`). */
  datatype User = User(position: Option<string>, employeeID: IdValue)

  function PositionOf(user: Option<User>): Option<string> {
    if user.Some? then user.value.position else None
  }

  /** `currentUser?.employeeID`: `undefined` while there is no user. */
  function EmployeeIdOf(user: Option<User>): IdValue {
    if user.Some? then user.value.employeeID else Undefined
  }

  /** `isCPC`. */
  predicate IsCpc(user: Option<User>) {
    PositionOf(user) == Some("CPC")
  }

  /** `isTeamLead2`: `task?.teamLeadId === currentUser?.employeeID`. */
  predicate IsTeamLead(task: ShownTask, user: Option<User>) {
    task.teamLeadId == EmployeeIdOf(user)
  }

  /** `canReportBug`: a coordinator or the task's team lead, on a completed task. */
  predicate CanReportBug(task: ShownTask, user: Option<User>) {
    (IsCpc(user) || IsTeamLead(task, user)) && task.status == Some("Completed")
  }

  /** The Report-Bug button is shown. */
  predicate ReportBugVisible(task: ShownTask, user: Option<User>) {
    CanReportBug(task, user) && task.reviewStatus != Some("Resolved")
  }

  /** The Mark-as-Resolved button is shown: the same test with one more `status === "Completed"`. */
  predicate MarkResolvedVisible(task: ShownTask, user: Option<User>) {
    CanReportBug(task, user) && task.reviewStatus != Some("Resolved") && task.status == Some("Completed")
  }

  /** The two buttons always appear together: the extra conjunct is already part of `canReportBug`. */
  lemma ButtonsShownTogether(task: ShownTask, user: Option<User>)
    ensures MarkResolvedVisible(task, user) <==> ReportBugVisible(task, user)
  {
  }

  /** Only a completed task can have a bug reported on it, whoever asks. */
  lemma ReportNeedsCompleted(task: ShownTask, user: Option<User>)
    requires task.status != Some("Completed")
    ensures !CanReportBug(task, user) && !ReportBugVisible(task, user) && !MarkResolvedVisible(task, user)
  {
  }

  /**
    The team-lead test is strict equality: two present ids match when they are the same
    string, and two missing ids match only when they are missing the same way.
   */
  lemma TeamLeadIsStrictEquality(task: ShownTask, user: Option<User>)
    ensures IsTeamLead(task, user) <==>
            (task.teamLeadId.Id? && EmployeeIdOf(user).Id? && task.teamLeadId.value == EmployeeIdOf(user).value) ||
            (task.teamLeadId.Undefined? && EmployeeIdOf(user).Undefined?) ||
            (task.teamLeadId.Null? && EmployeeIdOf(user).Null?)
  {
  }

  /**
    A completed task whose team lead id is missing counts as led by a user whose employee id
    is missing in the same way, for instance a task without the field while no user is loaded.
   */
  lemma MissingIdsMatch(task: ShownTask, user: Option<User>)
    requires task.status == Some("Completed")
    requires (task.teamLeadId.Undefined? && EmployeeIdOf(user).Undefined?) || (task.teamLeadId.Null? && EmployeeIdOf(user).Null?)
    ensures CanReportBug(task, user) && (task.reviewStatus != Some("Resolved") ==> ReportBugVisible(task, user))
  {
  }

  /** A team lead id of `null` does not match a user that is not loaded yet (`null === undefined` is false). */
  lemma NullLeadIsNotUnloadedUser(task: ShownTask)
    requires task.teamLeadId.Null?
    ensures !IsTeamLead(task, None)
    ensures !CanReportBug(task, None) && !ReportBugVisible(task, None) && !MarkResolvedVisible(task, None)
  {
  }

  // ----- The bug-report form -----

  /** Where `handleSubmit` stops, or that it goes on to send `createBug`. */
  datatype Validation = MissingText | MissingDeadline | DeadlineInPast | Accepted

  /**
    The guard chain of `handleSubmit`, in its order: both texts non-blank, a deadline
    chosen, and the deadline not before the start of today.
   */
  function ValidateBugReport(title: string, description: string, deadline: Option<int>, todayStart: int): (v: Validation)
    ensures v == MissingText <==> IsBlank(title) || IsBlank(description)
    ensures v == MissingDeadline <==> !IsBlank(title) && !IsBlank(description) && deadline.None?
    ensures v == DeadlineInPast <==> !IsBlank(title) && !IsBlank(description) && deadline.Some? && deadline.value < todayStart
    ensures v == Accepted <==> !IsBlank(title) && !IsBlank(description) && deadline.Some? && todayStart <= deadline.value
  {
    if IsBlank(title) || IsBlank(description) then MissingText
    else if deadline.None? then MissingDeadline
    else if deadline.value < todayStart then DeadlineInPast
    else Accepted
  }

  /** A deadline of today at midnight is accepted; one instant earlier is not. */
  lemma TodayIsAccepted(title: string, description: string, todayStart: int)
    requires !IsBlank(title) && !IsBlank(description)
    ensures ValidateBugReport(title, description, Some(todayStart), todayStart) == Accepted
    ensures ValidateBugReport(title, description, Some(todayStart - 1), todayStart) == DeadlineInPast
  {
  }

  /** The Submit button is disabled. */
  predicate SubmitDisabled(title: string, description: string, deadline: Option<int>) {
    IsBlank(title) || IsBlank(description) || deadline.None?
  }

  /** The button is enabled exactly when the form gets past the first two guards of `handleSubmit`. */
  lemma SubmitEnabledPassesFirstGuards(title: string, description: string, deadline: Option<int>, todayStart: int)
    ensures !SubmitDisabled(title, description, deadline) <==>
            ValidateBugReport(title, description, deadline, todayStart) in {DeadlineInPast, Accepted}
  {
  }

  /** Text made only of white space is refused, like empty text. */
  lemma WhiteSpaceTitleRefused(description: string, deadline: Option<int>, todayStart: int)
    ensures ValidateBugReport(" \t\n", description, deadline, todayStart) == MissingText
  {
    BlankIffAllSpace(" \t\n");
  }

  /** The `createBug` payload. */
  datatype CreateBugRequest = CreateBugRequest(title: string, description: string, taskId: string, priority: string, deadline: int)

  /** The `updateTaskReviewStatus` payload. */
  datatype ReviewStatusUpdate = ReviewStatusUpdate(taskId: string, reviewStatus: string)

  /** The state of the view that its handlers change. */
  class TaskViewScreen {
    /** `params.id`; the view fetches the task only when it is non-empty. */
    const taskId: string
    var isModalOpen: bool
    var bugTitle: string
    var bugDescription: string
    var bugPriority: string
    var bugDeadline: Option<int>
    var actionTrigger: nat
    /** How many `fetchTaskById` requests the effect on `[task_id, actionTrigger]` has sent. */
    var fetchRequests: nat

    /** One fetch on mount and one more after every change of `actionTrigger`. */
    ghost predicate Valid()
      reads this
    {
      fetchRequests == if taskId != "" then actionTrigger + 1 else 0
    }

    constructor (id: string)
      ensures Valid() && taskId == id
      ensures !isModalOpen && bugTitle == "" && bugDescription == "" && bugPriority == "Medium" && bugDeadline == None
      ensures actionTrigger == 0
    {
      taskId := id;
      isModalOpen, bugTitle, bugDescription, bugPriority, bugDeadline := false, "", "", "Medium", None;
      actionTrigger := 0;
      fetchRequests := if id != "" then 1 else 0;
    }

    /** `openModal`. */
    method OpenModal()
      requires Valid()
      modifies this`isModalOpen
      ensures Valid() && isModalOpen
    {
      isModalOpen := true;
    }

    /** The dialog's own open/close signal: only the flag changes, the form keeps its values. */
    method SetModalOpen(open: bool)
      requires Valid()
      modifies this`isModalOpen
      ensures Valid() && isModalOpen == open
    {
      isModalOpen := open;
    }

    method SetBugTitle(title: string)
      requires Valid()
      modifies this`bugTitle
      ensures Valid() && bugTitle == title
    {
      bugTitle := title;
    }

    method SetBugDescription(description: string)
      requires Valid()
      modifies this`bugDescription
      ensures Valid() && bugDescription == description
    {
      bugDescription := description;
    }

    method SetBugPriority(priority: string)
      requires Valid()
      modifies this`bugPriority
      ensures Valid() && bugPriority == priority
    {
      bugPriority := priority;
    }

    /** Picking (or clearing) a day in the calendar. */
    method SetBugDeadline(deadline: Option<int>)
      requires Valid()
      modifies this`bugDeadline
      ensures Valid() && bugDeadline == deadline
    {
      bugDeadline := deadline;
    }

    /** `closeModal`: closes the dialog and resets the form. */
    method CloseModal()
      requires Valid()
      modifies this`isModalOpen, this`bugTitle, this`bugDescription, this`bugPriority, this`bugDeadline
      ensures Valid()
      ensures !isModalOpen && bugTitle == "" && bugDescription == "" && bugPriority == "Medium" && bugDeadline == None
    {
      isModalOpen := false;
      bugTitle := "";
      bugDescription := "";
      bugPriority := "Medium";
      bugDeadline := None;
    }

    /** `setActionTrigger(prev => prev + 1)`, and the refetch its effect sends. */
    method BumpActionTrigger()
      requires Valid()
      modifies this`actionTrigger, this`fetchRequests
      ensures Valid() && actionTrigger == old(actionTrigger) + 1
      ensures fetchRequests == old(fetchRequests) + (if taskId != "" then 1 else 0)
    {
      actionTrigger := actionTrigger + 1;
      if taskId != "" {
        fetchRequests := fetchRequests + 1;
      }
    }

    /**
      `handleSubmit`: validates; when the form is accepted sends `createBug`, and on success
      bumps the trigger and resets the closed form. A refusal or a failed request changes nothing.
     */
    method HandleSubmit(todayStart: int, outcome: Outcome) returns (verdict: Validation, request: Option<CreateBugRequest>)
      requires Valid()
      modifies this`isModalOpen, this`bugTitle, this`bugDescription, this`bugPriority, this`bugDeadline
      modifies this`actionTrigger, this`fetchRequests
      ensures Valid()
      ensures verdict == ValidateBugReport(old(bugTitle), old(bugDescription), old(bugDeadline), todayStart)
      ensures request.Some? <==> verdict == Accepted
      ensures request.Some? ==>
        request.value == CreateBugRequest(old(bugTitle), old(bugDescription), taskId, old(bugPriority), old(bugDeadline).value)
      ensures request.Some? && outcome == Succeeded ==>
        && actionTrigger == old(actionTrigger) + 1
        && !isModalOpen && bugTitle == "" && bugDescription == "" && bugPriority == "Medium" && bugDeadline == None
      ensures !(request.Some? && outcome == Succeeded) ==>
        && actionTrigger == old(actionTrigger) && fetchRequests == old(fetchRequests)
        && isModalOpen == old(isModalOpen) && bugTitle == old(bugTitle) && bugDescription == old(bugDescription)
        && bugPriority == old(bugPriority) && bugDeadline == old(bugDeadline)
    {
      verdict := ValidateBugReport(bugTitle, bugDescription, bugDeadline, todayStart);
      if verdict != Accepted {
        request := None;
        return;
      }
      request := Some(CreateBugRequest(bugTitle, bugDescription, taskId, bugPriority, bugDeadline.value));
      if outcome == Succeeded {
        BumpActionTrigger();
        CloseModal();
      }
    }

    /** `handleMarkAsResolved`: always sends the request; only a success bumps the trigger. */
    method HandleMarkAsResolved(outcome: Outcome) returns (request: ReviewStatusUpdate)
      requires Valid()
      modifies this`actionTrigger, this`fetchRequests
      ensures Valid()
      ensures request == ReviewStatusUpdate(taskId, "Resolved")
      ensures actionTrigger == old(actionTrigger) + (if outcome == Succeeded then 1 else 0)
    {
      request := ReviewStatusUpdate(taskId, "Resolved");
      if outcome == Succeeded {
        BumpActionTrigger();
      }
    }
  }
}
