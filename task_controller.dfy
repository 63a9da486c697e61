/**
 * backend/controllers/taskController.js: task creation, the per-role visibility filter of
 * the task list, the per-role field-merge rule of task updates, and task deletion.
 */
module TaskController {
  import opened Wrappers
  import opened Models
  import opened Store

  /**
   * GET /tasks: an Admin sees every task, a Team Lead the tasks of their own team (none
   * when they have no team), anyone else the tasks assigned to them.
   */
  function GetTasks(tasks: map<TaskId, Task>, caller: Summary): (r: map<TaskId, Task>)
    ensures forall id :: id in r ==> id in tasks && r[id] == tasks[id]
    ensures caller.fields.role == Admin ==> r == tasks
    ensures caller.fields.role == TeamLead ==>
      forall id :: id in r <==> id in tasks && caller.fields.teamId == Some(tasks[id].teamId)
    ensures caller.fields.role == TeamMember ==>
      forall id :: id in r <==> id in tasks && tasks[id].assignedTo == caller.id
  {
    match caller.fields.role
    case Admin => tasks
    case TeamLead =>
      if caller.fields.teamId.Some? then
        map id | id in tasks && tasks[id].teamId == caller.fields.teamId.value :: tasks[id]
      else map[]
    case TeamMember => map id | id in tasks && tasks[id].assignedTo == caller.id :: tasks[id]
  }

  /**
   * Whether the update controller lets `caller` past its ownership check for `task`: the
   * assignee always passes, and only a Team Member can be refused.
   */
  predicate MayUpdate(caller: Summary, task: Task)
    ensures task.assignedTo == caller.id ==> MayUpdate(caller, task)
    ensures !MayUpdate(caller, task) ==> caller.fields.role == TeamMember
  {
    if caller.fields.role == TeamMember then task.assignedTo == caller.id else true
  }

  /**
   * The task as updateTask saves it. A Team Member's request may set the status only;
   * an Admin's or Team Lead's request sets every truthy field among title, description,
   * assignee, priority, status and due date. A falsy field keeps the stored value, and
   * the team and the creator never change.
   */
  function MergeUpdate(role: Role, t: Task, patch: TaskInput): (r: Task)
    ensures r.teamId == t.teamId && r.createdBy == t.createdBy
    ensures r.status == patch.status.GetOr(t.status)
    ensures role == TeamMember ==>
      r.title == t.title && r.description == t.description && r.assignedTo == t.assignedTo
      && r.priority == t.priority && r.dueDate == t.dueDate
    ensures role != TeamMember ==>
      && r.title == (if TextGiven(patch.title) then patch.title.value else t.title)
      && r.description == (if TextGiven(patch.description) then patch.description.value else t.description)
      && r.assignedTo == patch.assignedTo.GetOr(t.assignedTo)
      && r.priority == patch.priority.GetOr(t.priority)
      && r.dueDate == patch.dueDate.GetOr(t.dueDate)
  {
    if role == TeamMember then
      t.(status := patch.status.GetOr(t.status))
    else
      t.(title := OrText(patch.title, t.title),
         description := OrText(patch.description, t.description),
         assignedTo := patch.assignedTo.GetOr(t.assignedTo),
         priority := patch.priority.GetOr(t.priority),
         status := patch.status.GetOr(t.status),
         dueDate := patch.dueDate.GetOr(t.dueDate))
  }

  /** A request body with no task fields. */
  const NoFields: TaskInput := TaskInput(None, None, None, None, None, None, None)

  /** A Team Member's update is the stored task with, at most, a new status. */
  lemma MemberChangesOnlyStatus(t: Task, patch: TaskInput)
    ensures MergeUpdate(TeamMember, t, patch) == t.(status := patch.status.GetOr(t.status))
    ensures patch.status.None? ==> MergeUpdate(TeamMember, t, patch) == t
  {
  }

  /** Sending the same update twice stores the same task as sending it once. */
  lemma MergeUpdateIdempotent(role: Role, t: Task, patch: TaskInput)
    ensures MergeUpdate(role, MergeUpdate(role, t, patch), patch) == MergeUpdate(role, t, patch)
  {
  }

  /** An update that carries no field, for any role, stores the task unchanged. */
  lemma EmptyUpdateKeepsTask(role: Role, t: Task)
    ensures MergeUpdate(role, t, NoFields) == t
  {
  }

  /** Every task a Team Member is shown is one the update controller lets them change. */
  lemma ListedTasksAreUpdatableByMember(tasks: map<TaskId, Task>, caller: Summary)
    requires caller.fields.role == TeamMember
    ensures forall id :: id in GetTasks(tasks, caller) ==> MayUpdate(caller, tasks[id])
  {
  }

  /** POST /tasks: the caller becomes the creator; everything else comes from the request. */
  method CreateTask(db: Db, caller: Summary, input: TaskInput) returns (r: Result<Doc<Task>>)
    requires db.Valid()
    modifies db
    ensures db.Valid() && db.users == old(db.users) && db.teams == old(db.teams)
    ensures r.Ok? <==> NewTask(input, caller.id).Ok?
    ensures r.Err? ==> r.failure.Rejected? && db.tasks == old(db.tasks)
    ensures r.Ok? ==>
      && r.value.id !in old(db.tasks)
      && r.value.fields == NewTask(input, caller.id).value
      && r.value.fields.createdBy == caller.id
      && db.tasks == old(db.tasks)[r.value.id := r.value.fields]
  {
    var created := NewTask(input, caller.id);
    if created.Err? {
      return Err(created.failure);
    }
    var id := db.FreshId();
    db.tasks := db.tasks[id := created.value];
    r := Ok(Doc(id, created.value));
  }

  /** PUT /tasks/:id: the ownership check for Team Members, then the field-merge rule. */
  method UpdateTask(db: Db, caller: Summary, id: TaskId, patch: TaskInput) returns (r: Result<Doc<Task>>)
    requires db.Valid()
    modifies db
    ensures db.Valid() && db.users == old(db.users) && db.teams == old(db.teams)
    ensures id !in old(db.tasks) ==> r == Err(NotFound("Task not found")) && db.tasks == old(db.tasks)
    ensures id in old(db.tasks) && !MayUpdate(caller, old(db.tasks)[id]) ==>
      r == Err(Forbidden("Not authorized to update this task")) && db.tasks == old(db.tasks)
    ensures id in old(db.tasks) && MayUpdate(caller, old(db.tasks)[id]) ==>
      && r == Ok(Doc(id, MergeUpdate(caller.fields.role, old(db.tasks)[id], patch)))
      && db.tasks == old(db.tasks)[id := r.value.fields]
  {
    if id !in db.tasks {
      return Err(NotFound("Task not found"));
    }
    var task := db.tasks[id];
    if caller.fields.role == TeamMember {
      if task.assignedTo != caller.id {
        return Err(Forbidden("Not authorized to update this task"));
      }
      task := task.(status := patch.status.GetOr(task.status));
    } else {
      task := task.(title := OrText(patch.title, task.title));
      task := task.(description := OrText(patch.description, task.description));
      task := task.(assignedTo := patch.assignedTo.GetOr(task.assignedTo));
      task := task.(priority := patch.priority.GetOr(task.priority));
      task := task.(status := patch.status.GetOr(task.status));
      task := task.(dueDate := patch.dueDate.GetOr(task.dueDate));
    }
    db.tasks := db.tasks[id := task];
    r := Ok(Doc(id, task));
  }

  /** DELETE /tasks/:id: no ownership check; the route's role gate is the only guard. */
  method DeleteTask(db: Db, id: TaskId) returns (r: Result<string>)
    requires db.Valid()
    modifies db
    ensures db.Valid() && db.users == old(db.users) && db.teams == old(db.teams)
    ensures id !in old(db.tasks) ==> r == Err(NotFound("Task not found")) && db.tasks == old(db.tasks)
    ensures id in old(db.tasks) ==> r == Ok("Task removed") && db.tasks == old(db.tasks) - {id}
  {
    if id !in db.tasks {
      return Err(NotFound("Task not found"));
    }
    db.tasks := db.tasks - {id};
    r := Ok("Task removed");
  }
}
