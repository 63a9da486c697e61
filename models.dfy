/**
 * The records of the TaskNest store (backend/models/Task.js, backend/models/Team.js and
 * the user record the controllers read and write), the request payloads, the response
 * summaries and the failures the controllers raise.
 */
module Models {
  import opened Wrappers

  /** Document identities. The store hands out fresh ones; their text form is not modelled. */
  type UserId = nat
  type TeamId = nat
  type TaskId = nat

  /** A point in time, in milliseconds since the epoch. */
  type Date = int

  datatype Role = Admin | TeamLead | TeamMember

  /** The role name as it is stored and shown. */
  function RoleName(r: Role): string {
    match r
    case Admin => "Admin"
    case TeamLead => "Team Lead"
    case TeamMember => "Team Member"
  }

  datatype Priority = Low | Medium | High

  datatype Status = ToDo | InProgress | Review | Completed

  const DefaultPriority: Priority := Medium
  const DefaultStatus: Status := ToDo

  /** A user record. The password is whatever the store keeps for it (its hashing is not modelled). */
  datatype User = User(name: string, email: string, password: string, role: Role, teamId: Option<TeamId>)

  /** A team record; `members` keeps the order and any repetition of the list it was given. */
  datatype Team = Team(name: string, members: seq<UserId>, createdBy: UserId, createdAt: Date, updatedAt: Date)

  /** A task record. */
  datatype Task = Task(
    title: string,
    description: string,
    assignedTo: UserId,
    priority: Priority,
    status: Status,
    dueDate: Date,
    createdBy: UserId,
    teamId: TeamId)

  /** A document as the API returns it: its `_id` and its fields. */
  datatype Doc<T> = Doc(id: nat, fields: T)

  /** The fields of a user that responses carry: everything but the password. */
  datatype Profile = Profile(name: string, email: string, role: Role, teamId: Option<TeamId>)

  /** `{ _id, name, email, role, teamId }`, and also the authenticated principal. */
  type Summary = Doc<Profile>

  function SummaryOf(id: UserId, u: User): (s: Summary)
    ensures s.id == id && s.fields.role == u.role && s.fields.teamId == u.teamId
    ensures s.fields.name == u.name && s.fields.email == u.email
  {
    Doc(id, Profile(u.name, u.email, u.role, u.teamId))
  }

  /**
   * The task fields a request body may carry. None stands for a field that is absent
   * or null, which the update reads alike; a present text field may still be the empty
   * string, which is falsy too.
   */
  datatype TaskInput = TaskInput(
    title: Option<string>,
    description: Option<string>,
    assignedTo: Option<UserId>,
    priority: Option<Priority>,
    status: Option<Status>,
    dueDate: Option<Date>,
    teamId: Option<TeamId>)

  /** The failures a request can end in, each with the message the server sends. */
  datatype Failure =
    | BadRequest(message: string)     // 400
    | Unauthorized(message: string)   // 401
    | Forbidden(message: string)      // 403
    | NotFound(message: string)       // 404
    | Rejected(message: string)       // the store refused the document (validation or unique index)
    | ServerError(message: string)    // an exception the controller did not anticipate

  datatype Result<+T> = Ok(value: T) | Err(failure: Failure)

  /** JavaScript truthiness of an optional text value: absent, null and "" are falsy. */
  predicate TextGiven(given: Option<string>) {
    given.Some? && given.value != ""
  }

  /** `given || current` for a text field. */
  function OrText(given: Option<string>, current: string): (r: string)
    ensures TextGiven(given) ==> r == given.value
    ensures !TextGiven(given) ==> r == current
  {
    if TextGiven(given) then given.value else current
  }

  /**
   * Task.create: the schema's required fields, enums and defaults. Text fields must be
   * non-empty; every reference and the due date must be present; a missing priority
   * or status takes its default.
   */
  function NewTask(input: TaskInput, creator: UserId): (r: Result<Task>)
    ensures r.Ok? <==>
      TextGiven(input.title) && TextGiven(input.description) && input.dueDate.Some?
      && input.assignedTo.Some? && input.teamId.Some?
    ensures r.Err? ==> r.failure.Rejected?
    ensures r.Ok? ==>
      && r.value.title == input.title.value
      && r.value.description == input.description.value
      && r.value.assignedTo == input.assignedTo.value
      && r.value.dueDate == input.dueDate.value
      && r.value.teamId == input.teamId.value
      && r.value.createdBy == creator
      && r.value.priority == (if input.priority.Some? then input.priority.value else Medium)
      && r.value.status == (if input.status.Some? then input.status.value else ToDo)
  {
    if !TextGiven(input.title) || !TextGiven(input.description) || input.dueDate.None?
       || input.assignedTo.None? || input.teamId.None?
    then Err(Rejected("Task validation failed"))
    else Ok(Task(
      input.title.value,
      input.description.value,
      input.assignedTo.value,
      input.priority.GetOr(DefaultPriority),
      input.status.GetOr(DefaultStatus),
      input.dueDate.value,
      creator,
      input.teamId.value))
  }

  /**
   * Team.create: the name is required (an empty name is refused); an omitted member
   * list is stored as empty; both timestamps are the creation time.
   */
  function NewTeam(name: string, members: Option<seq<UserId>>, creator: UserId, now: Date): (r: Result<Team>)
    ensures r.Ok? <==> name != ""
    ensures r.Err? ==> r.failure.Rejected?
    ensures r.Ok? ==>
      && r.value.name == name
      && r.value.members == members.GetOr([])
      && r.value.createdBy == creator
      && r.value.createdAt == now && r.value.updatedAt == now
  {
    if name == "" then Err(Rejected("Team validation failed: name is required"))
    else Ok(Team(name, members.GetOr([]), creator, now, now))
  }
}
