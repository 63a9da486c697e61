/**
 * backend/controllers/authController.js: registration, login and the profile lookup.
 * Password comparison is an opaque function parameter; issuing the session token is
 * represented by the user id the response carries.
 */
module AuthController {
  import opened Wrappers
  import opened Models
  import opened Store

  /** Some stored user has this email (`User.findOne({ email })` finds one). */
  predicate EmailTaken(users: map<UserId, User>, email: string) {
    exists u :: u in users && users[u].email == email
  }

  /** The role a new account gets: Admin when the store holds no user yet, Team Member otherwise. */
  function FirstAccountRole(users: map<UserId, User>): (r: Role)
    ensures r == Admin <==> users == map[]
    ensures r != TeamLead
  {
    if |users| == 0 then Admin else TeamMember
  }

  /** POST /auth/register. */
  method RegisterUser(db: Db, name: string, email: string, password: string) returns (r: Result<Summary>)
    requires db.Valid()
    modifies db
    ensures db.Valid() && db.teams == old(db.teams) && db.tasks == old(db.tasks)
    ensures EmailTaken(old(db.users), email) ==>
      r == Err(BadRequest("User already exists")) && db.users == old(db.users)
    ensures !EmailTaken(old(db.users), email) ==>
      && r.Ok?
      && r.value.id !in old(db.users)
      && db.users == old(db.users)[r.value.id := User(name, email, password, FirstAccountRole(old(db.users)), None)]
      && r.value == SummaryOf(r.value.id, db.users[r.value.id])
    ensures r.Ok? ==> (r.value.fields.role == Admin <==> old(db.users) == map[])
    ensures old(RefsSound(db.users, db.teams)) ==> RefsSound(db.users, db.teams)
  {
    if EmailTaken(db.users, email) {
      return Err(BadRequest("User already exists"));
    }
    var role := FirstAccountRole(db.users);
    var id := db.FreshId();
    var user := User(name, email, password, role, None);
    db.users := db.users[id := user];
    r := Ok(SummaryOf(id, user));
  }

  /**
   * POST /auth/login. `matches(stored, given)` is the password check. An unknown email
   * and a wrong password fail alike.
   */
  method AuthUser(db: Db, email: string, password: string, matches: (string, string) -> bool)
    returns (r: Result<Summary>)
    ensures r.Err? ==> r.failure == Unauthorized("Invalid email or password")
    ensures !EmailTaken(db.users, email) ==> r.Err?
    ensures r.Ok? ==>
      && r.value.id in db.users
      && db.users[r.value.id].email == email
      && matches(db.users[r.value.id].password, password)
      && r.value == SummaryOf(r.value.id, db.users[r.value.id])
    ensures (forall u :: u in db.users && db.users[u].email == email ==> !matches(db.users[u].password, password))
      ==> r.Err?
    ensures EmailTaken(db.users, email)
      && (forall u :: u in db.users && db.users[u].email == email ==> matches(db.users[u].password, password))
      ==> r.Ok?
  {
    var found := set u | u in db.users && db.users[u].email == email;
    if found == {} {
      assert forall u :: u in db.users && db.users[u].email == email ==> u in found;
      return Err(Unauthorized("Invalid email or password"));
    }
    var id :| id in found;
    var user := db.users[id];
    if matches(user.password, password) {
      r := Ok(SummaryOf(id, user));
    } else {
      r := Err(Unauthorized("Invalid email or password"));
    }
  }

  /** GET /auth/profile: the caller's stored record, or 404 when it is gone. */
  function GetUserProfile(users: map<UserId, User>, caller: Summary): (r: Result<Summary>)
    ensures caller.id !in users ==> r == Err(NotFound("User not found"))
    ensures caller.id in users ==> r.Ok? && r.value.id == caller.id && r.value == SummaryOf(caller.id, users[caller.id])
  {
    if caller.id in users then Ok(SummaryOf(caller.id, users[caller.id]))
    else Err(NotFound("User not found"))
  }
}
