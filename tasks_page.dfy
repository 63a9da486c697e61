/**
 * frontend/src/pages/Tasks.jsx: the board's status columns, the rule that shows a task's
 * status selector, the status update, and the new-task form.
 */
module TasksPage {
  import opened Wrappers
  import opened Models
  import opened Seqs
  import TaskController
  import Routes

  /** The board's columns, in the order of the Status enum. */
  const Columns: seq<Status> := [ToDo, InProgress, Review, Completed]

  /**
   * Every task lands in exactly one column, the one of its status, and the column
   * counts add up to the number of tasks.
   */
  lemma ColumnsPartitionTasks(tasks: seq<Doc<Task>>)
    ensures forall s: Status :: s in Columns
    ensures forall d, i :: d in tasks && 0 <= i < |Columns| ==>
      (d in Matching(tasks, StatusIs(Columns[i])) <==> Columns[i] == d.fields.status)
    ensures |Matching(tasks, StatusIs(Columns[0]))| + |Matching(tasks, StatusIs(Columns[1]))|
          + |Matching(tasks, StatusIs(Columns[2]))| + |Matching(tasks, StatusIs(Columns[3]))| == |tasks|
  {
    forall s: Status ensures s in Columns {
      assert s == Columns[0] || s == Columns[1] || s == Columns[2] || s == Columns[3];
    }
    StatusPartition(tasks);
  }

  /**
   * A task card as the page holds it. Cards from the task list carry the assignee as a
   * populated user, whose `_id` the page reads. Cards the page puts in from the response of
   * a create or a status update carry the bare id, and `assignedTo?._id` is undefined
   * there.
   */
  datatype Card = Card(task: Doc<Task>, populated: bool)

  /** The id `task.assignedTo?._id` reads on a card. */
  function ShownAssignee(card: Card): (r: Option<UserId>)
    ensures r.Some? <==> card.populated
    ensures r.Some? ==> r.value == card.task.fields.assignedTo
  {
    if card.populated then Some(card.task.fields.assignedTo) else None
  }

  /**
   * The status selector of a task card is shown to anyone but a Team Member, and to a
   * Team Member whose id the card shows as its assignee.
   */
  predicate ShowStatusSelect(viewer: Summary, card: Card)
    ensures viewer.fields.role != TeamMember ==> ShowStatusSelect(viewer, card)
    ensures ShowStatusSelect(viewer, card) ==> TaskController.MayUpdate(viewer, card.task.fields)
  {
    viewer.fields.role != TeamMember || ShownAssignee(card) == Some(viewer.id)
  }

  /**
   * The selector is never shown where the server would refuse the update, and on a card
   * from the task list it is shown exactly where the server would accept it.
   */
  lemma StatusSelectMatchesUpdateRule(viewer: Summary, card: Card)
    ensures ShowStatusSelect(viewer, card) ==> TaskController.MayUpdate(viewer, card.task.fields)
    ensures card.populated ==>
      (ShowStatusSelect(viewer, card) <==> TaskController.MayUpdate(viewer, card.task.fields))
  {
  }

  /**
   * updateStatus puts the saved task in place of the card, with a bare assignee id. A Team
   * Member who changed the status of their own task then loses the selector on that card,
   * although the server would still accept their next update.
   */
  lemma StatusChangeHidesMemberSelect(viewer: Summary, card: Card, status: Status)
    requires viewer.fields.role == TeamMember && card.task.fields.assignedTo == viewer.id
    ensures ShowStatusSelect(viewer, card) <==> card.populated
    ensures
      var saved := Card(Doc(card.task.id,
        TaskController.MergeUpdate(viewer.fields.role, card.task.fields, StatusRequest(status))), false);
      && TaskController.MayUpdate(viewer, saved.task.fields)
      && !ShowStatusSelect(viewer, saved)
  {
    var saved := TaskController.MergeUpdate(viewer.fields.role, card.task.fields, StatusRequest(status));
    assert saved.assignedTo == card.task.fields.assignedTo;
  }

  /** The body updateStatus sends: `{ status }` and nothing else. */
  function StatusRequest(status: Status): (p: TaskInput)
    ensures p.status == Some(status)
    ensures p == TaskController.NoFields.(status := Some(status))
  {
    TaskInput(None, None, None, None, Some(status), None, None)
  }

  /** Whatever the sender's role, a status-only request changes the status and nothing else. */
  lemma StatusRequestChangesOnlyStatus(role: Role, t: Task, status: Status)
    ensures TaskController.MergeUpdate(role, t, StatusRequest(status)) == t.(status := status)
  {
  }

  /** A created task is appended; it shows up at the end of its status column and no other column changes. */
  lemma CreatedTaskJoinsItsColumn(tasks: seq<Doc<Task>>, created: Doc<Task>, column: Status)
    ensures column == created.fields.status ==>
      Matching(tasks + [created], StatusIs(column)) == Matching(tasks, StatusIs(column)) + [created]
    ensures column != created.fields.status ==>
      Matching(tasks + [created], StatusIs(column)) == Matching(tasks, StatusIs(column))
  {
    MatchingAppend(tasks, created, StatusIs(column));
  }

  /** The new-task form. An empty assignee, team or due date is None. */
  datatype TaskForm = TaskForm(
    title: string,
    description: string,
    priority: Priority,
    status: Status,
    dueDate: Option<Date>,
    assignedTo: Option<UserId>,
    teamId: Option<TeamId>)

  /**
   * resetForm: empty texts, the default priority and status; an Admin starts with no
   * assignee and no team, anyone else with themselves and their own team.
   */
  function ResetForm(viewer: Summary): (f: TaskForm)
    ensures f.title == "" && f.description == "" && f.dueDate.None?
    ensures f.priority == DefaultPriority && f.status == DefaultStatus
    ensures viewer.fields.role == Admin ==> f.assignedTo.None? && f.teamId.None?
    ensures viewer.fields.role != Admin ==> f.assignedTo == Some(viewer.id) && f.teamId == viewer.fields.teamId
  {
    if viewer.fields.role == Admin then TaskForm("", "", Medium, ToDo, None, None, None)
    else TaskForm("", "", Medium, ToDo, None, Some(viewer.id), viewer.fields.teamId)
  }

  /** The body handleCreateTask sends: the form, with a Team Member's empty assignee set to themselves. */
  function CreatePayload(form: TaskForm, viewer: Summary): (p: TaskInput)
    ensures p.title == Some(form.title) && p.description == Some(form.description)
    ensures p.priority == Some(form.priority) && p.status == Some(form.status)
    ensures p.dueDate == form.dueDate && p.teamId == form.teamId
    ensures form.assignedTo.None? && viewer.fields.role == TeamMember ==> p.assignedTo == Some(viewer.id)
    ensures form.assignedTo.Some? || viewer.fields.role != TeamMember ==> p.assignedTo == form.assignedTo
  {
    var assignee := if form.assignedTo.None? && viewer.fields.role == TeamMember then Some(viewer.id) else form.assignedTo;
    TaskInput(Some(form.title), Some(form.description), assignee, Some(form.priority), Some(form.status),
              form.dueDate, form.teamId)
  }

  /** The New Task button is shown to Admin and Team Lead, and hidden from a Team Member only. */
  predicate ShowNewTaskButton(role: Role)
    ensures ShowNewTaskButton(role) <==> role != TeamMember
  {
    role == Admin || role == TeamLead
  }

  /** The button is shown exactly to the roles the task-creation route admits. */
  lemma NewTaskButtonMatchesRoute(role: Role)
    ensures Routes.RouteRoles(Routes.TasksPost).Some?
    ensures ShowNewTaskButton(role) <==> role in Routes.RouteRoles(Routes.TasksPost).value
  {
  }

  /**
   * A Team Lead with a team, whom the task-creation route admits, who fills in title,
   * description and due date of a reset form sends a payload the schema accepts: a task
   * assigned to themselves in their own team, with the defaults.
   */
  lemma FilledResetFormIsAccepted(viewer: Summary, title: string, description: string, due: Date)
    requires viewer.fields.role == TeamLead && viewer.fields.teamId.Some?
    requires title != "" && description != ""
    ensures Routes.RouteRoles(Routes.TasksPost).Some?
    ensures viewer.fields.role in Routes.RouteRoles(Routes.TasksPost).value
    ensures
      var form := ResetForm(viewer).(title := title, description := description, dueDate := Some(due));
      var created := NewTask(CreatePayload(form, viewer), viewer.id);
      && created.Ok?
      && created.value.assignedTo == viewer.id && created.value.teamId == viewer.fields.teamId.value
      && created.value.priority == Medium && created.value.status == ToDo
  {
  }
}
