/**
 * backend/routes/taskRoutes.js, teamRoutes.js and userRoutes.js: which middleware runs
 * before each controller. Every route runs `protect`; some also run `authorize` with a
 * role list.
 */
module Routes {
  import opened Wrappers
  import opened Models
  import AuthMiddleware

  datatype Route =
    | TasksGet | TasksPost | TaskPut | TaskDelete
    | TeamsPost | TeamsGet | TeamsMine | TeamPut | TeamDelete
    | UsersGet | UserPut | UserDelete

  /** The roles the route's `authorize(...)` lists, or None when the route has no role gate. */
  function RouteRoles(route: Route): (r: Option<seq<Role>>)
    ensures r.None? <==> route in {TasksGet, TaskPut, TeamsMine}
    ensures r.Some? ==> Admin in r.value && TeamMember !in r.value
  {
    match route
    case TasksGet => None
    case TasksPost => Some([Admin, TeamLead])
    case TaskPut => None
    case TaskDelete => Some([Admin, TeamLead])
    case TeamsPost => Some([Admin])
    case TeamsGet => Some([Admin, TeamLead])
    case TeamsMine => None
    case TeamPut => Some([Admin])
    case TeamDelete => Some([Admin])
    case UsersGet => Some([Admin])
    case UserPut => Some([Admin])
    case UserDelete => Some([Admin])
  }

  /**
   * The middleware chain of a route: protect, then authorize when the route has a
   * role list. A request admitted with no user record fails on its first read of
   * `req.user`, before any role is checked.
   */
  function Gate(route: Route, cookie: Option<string>, verify: string -> Option<UserId>, users: map<UserId, User>)
    : (r: Result<Summary>)
    ensures !TextGiven(cookie) ==> r == Err(Unauthorized("Not authorized, no token"))
    ensures r.Ok? ==> Authenticated(cookie, verify, users)
                      && r.value == SummaryOf(verify(cookie.value).value, users[verify(cookie.value).value])
    ensures r.Err? ==> r.failure.Unauthorized? || r.failure.Forbidden? || r.failure.ServerError?
  {
    match AuthMiddleware.Protect(cookie, verify, users)
    case Err(f) => Err(f)
    case Ok(None) => Err(ServerError("Cannot read properties of null"))
    case Ok(Some(caller)) =>
      match RouteRoles(route)
      case None => Ok(caller)
      case Some(roles) =>
        match AuthMiddleware.Authorize(roles, caller)
        case Err(f) => Err(f)
        case Ok(_) => Ok(caller)
  }

  /**
   * The access policy by role, written per role: an Admin may use every route; a Team
   * Lead every task route, the team list and their own team; a Team Member may list and
   * update tasks and fetch their own team.
   */
  predicate Permitted(role: Role, route: Route) {
    match role
    case Admin => true
    case TeamLead => route in {TasksGet, TasksPost, TaskPut, TaskDelete, TeamsGet, TeamsMine}
    case TeamMember => route in {TasksGet, TaskPut, TeamsMine}
  }

  /** The caller a cookie resolves to, when it resolves to a stored user. */
  predicate Authenticated(cookie: Option<string>, verify: string -> Option<UserId>, users: map<UserId, User>) {
    TextGiven(cookie) && verify(cookie.value).Some? && verify(cookie.value).value in users
  }

  /**
   * The route table implements the policy: a request passes exactly when its cookie
   * resolves to a stored user whose role the policy permits on that route, and the
   * caller is that user. A missing cookie gives 401 on every route, and an
   * authenticated caller outside the policy gets 403.
   */
  lemma GateFollowsPolicy(route: Route, cookie: Option<string>, verify: string -> Option<UserId>, users: map<UserId, User>)
    ensures var r := Gate(route, cookie, verify, users);
      && (r.Ok? <==> Authenticated(cookie, verify, users)
                     && Permitted(users[verify(cookie.value).value].role, route))
      && (r.Ok? ==> r.value == SummaryOf(verify(cookie.value).value, users[verify(cookie.value).value]))
      && (!TextGiven(cookie) ==> r == Err(Unauthorized("Not authorized, no token")))
      && (Authenticated(cookie, verify, users) ==>
            (r.Err? ==> r.failure.Forbidden?)
            && (r.Err? <==> !Permitted(users[verify(cookie.value).value].role, route)))
  {
    var p := AuthMiddleware.Protect(cookie, verify, users);
    if Authenticated(cookie, verify, users) {
      var id := verify(cookie.value).value;
      var caller := SummaryOf(id, users[id]);
      assert p == Ok(Some(caller));
      var role := users[id].role;
      match RouteRoles(route)
      case None =>
        assert Permitted(role, route);
      case Some(roles) =>
        assert Permitted(role, route) <==> role in roles;
    } else {
      assert p.Err? || p == Ok(None);
    }
  }

  /**
   * The task routes: listing and updating pass any authenticated caller (the update
   * controller decides the rest); creating and deleting pass Admin and Team Lead only.
   */
  lemma TaskRoutesGate(route: Route, cookie: Option<string>, verify: string -> Option<UserId>, users: map<UserId, User>)
    requires route in {TasksGet, TasksPost, TaskPut, TaskDelete}
    ensures !TextGiven(cookie) ==> Gate(route, cookie, verify, users) == Err(Unauthorized("Not authorized, no token"))
    ensures Authenticated(cookie, verify, users) ==>
      var role := users[verify(cookie.value).value].role;
      (Gate(route, cookie, verify, users).Ok? <==> route in {TasksGet, TaskPut} || role in {Admin, TeamLead})
  {
    GateFollowsPolicy(route, cookie, verify, users);
  }

  /**
   * The team routes: creating, updating and deleting pass Admin only; the full list
   * passes Admin and Team Lead; the caller's own team passes any authenticated caller.
   */
  lemma TeamRoutesGate(route: Route, cookie: Option<string>, verify: string -> Option<UserId>, users: map<UserId, User>)
    requires route in {TeamsPost, TeamsGet, TeamsMine, TeamPut, TeamDelete}
    ensures !TextGiven(cookie) ==> Gate(route, cookie, verify, users) == Err(Unauthorized("Not authorized, no token"))
    ensures Authenticated(cookie, verify, users) ==>
      var role := users[verify(cookie.value).value].role;
      (Gate(route, cookie, verify, users).Ok? <==>
         route == TeamsMine || role == Admin || (route == TeamsGet && role == TeamLead))
  {
    GateFollowsPolicy(route, cookie, verify, users);
  }

  /** The user routes pass Admin only; a Team Lead or Team Member gets 403 on each. */
  lemma UserRoutesGate(route: Route, cookie: Option<string>, verify: string -> Option<UserId>, users: map<UserId, User>)
    requires route in {UsersGet, UserPut, UserDelete}
    ensures !TextGiven(cookie) ==> Gate(route, cookie, verify, users) == Err(Unauthorized("Not authorized, no token"))
    ensures Authenticated(cookie, verify, users) ==>
      var role := users[verify(cookie.value).value].role;
      && (Gate(route, cookie, verify, users).Ok? <==> role == Admin)
      && (role != Admin ==> Gate(route, cookie, verify, users).Err?
                            && Gate(route, cookie, verify, users).failure.Forbidden?)
  {
    GateFollowsPolicy(route, cookie, verify, users);
  }
}
