/**
 * backend/controllers/userController.js: the Admin's user list, the user patch, and user
 * deletion. None of them touches a team's member list.
 */
module UserController {
  import opened Wrappers
  import opened Models
  import opened Store

  /** GET /users: every user, without the password. */
  function GetUsers(users: map<UserId, User>): (r: map<UserId, Profile>)
    ensures r.Keys == users.Keys
    ensures forall id :: id in r ==> Doc(id, r[id]) == SummaryOf(id, users[id])
  {
    map id | id in users :: SummaryOf(id, users[id]).fields
  }

  /**
   * The fields of PUT /users/:id. Text and role fields are falsy when None (absent or
   * null) or the empty string. `teamId` tells an absent key (None) from a key that is
   * present, whose value may be null (Some(None)).
   */
  datatype UserPatch = UserPatch(
    name: Option<string>,
    email: Option<string>,
    role: Option<Role>,
    teamId: Option<Option<TeamId>>)

  /**
   * The user as updateUser saves it: truthy name, email and role replace the stored
   * ones; `teamId` is overwritten exactly when the request has the key; the password
   * is never touched.
   */
  function PatchUser(u: User, patch: UserPatch): (r: User)
    ensures r.password == u.password
    ensures r.name == (if TextGiven(patch.name) then patch.name.value else u.name)
    ensures r.email == (if TextGiven(patch.email) then patch.email.value else u.email)
    ensures r.role == patch.role.GetOr(u.role)
    ensures patch.teamId.Some? ==> r.teamId == patch.teamId.value
    ensures patch.teamId.None? ==> r.teamId == u.teamId
  {
    var r := u.(name := OrText(patch.name, u.name), email := OrText(patch.email, u.email),
                role := patch.role.GetOr(u.role));
    if patch.teamId.Some? then r.(teamId := patch.teamId.value) else r
  }

  /**
   * The patch leaves the user's team reference acceptable to the team invariant: it has
   * no `teamId` key, sets it to null, or names a team that already lists the user.
   */
  predicate PatchKeepsTeamRef(teams: map<TeamId, Team>, id: UserId, patch: UserPatch) {
    match patch.teamId
    case None => true
    case Some(None) => true
    case Some(Some(t)) => t in teams && id in teams[t].members
  }

  /**
   * From a store that keeps the team invariant, the patched store keeps it exactly when
   * the patch leaves the team reference acceptable.
   */
  lemma PatchKeepsRefsSound(users: map<UserId, User>, teams: map<TeamId, Team>, id: UserId, patch: UserPatch)
    requires RefsSound(users, teams) && id in users
    ensures RefsSound(users[id := PatchUser(users[id], patch)], teams) <==> PatchKeepsTeamRef(teams, id, patch)
  {
    var users' := users[id := PatchUser(users[id], patch)];
    if PatchKeepsTeamRef(teams, id, patch) {
      forall u | u in users' && users'[u].teamId.Some?
        ensures users'[u].teamId.value in teams && u in teams[users'[u].teamId.value].members
      {
        if u != id || patch.teamId.None? {
          assert users'[u].teamId == users[u].teamId;
        }
      }
    } else {
      assert users'[id].teamId == patch.teamId.value;
    }
  }

  /** Setting `teamId` through the user patch breaks the invariant: no team lists the user. */
  lemma PatchTeamBreaksRefs()
    ensures
      var users := map[5 := User("Ann", "ann@example.com", "h", TeamMember, None)];
      var teams := map[1 := Team("A", [], 0, 0, 0)];
      var patch := UserPatch(None, None, None, Some(Some(1)));
      RefsSound(users, teams) && !RefsSound(users[5 := PatchUser(users[5], patch)], teams)
  {
    var users := map[5 := User("Ann", "ann@example.com", "h", TeamMember, None)];
    var patch := UserPatch(None, None, None, Some(Some(1)));
    assert users[5 := PatchUser(users[5], patch)][5].teamId == Some(1);
  }

  /** Deleting a user keeps the invariant, which only speaks of stored users. */
  lemma DeleteUserKeepsRefsSound(users: map<UserId, User>, teams: map<TeamId, Team>, id: UserId)
    requires RefsSound(users, teams)
    ensures RefsSound(users - {id}, teams)
  {
  }

  /** Deleting a user leaves every member list that names them as it was. */
  lemma DeleteUserLeavesDanglingMember()
    ensures
      var users := map[5 := User("Ann", "ann@example.com", "h", TeamMember, Some(1))];
      var teams := map[1 := Team("A", [5], 0, 0, 0)];
      && RefsSound(users, teams) && RefsSound(users - {5}, teams)
      && 5 in teams[1].members && 5 !in users - {5}
  {
  }

  /** PUT /users/:id. */
  method UpdateUser(db: Db, id: UserId, patch: UserPatch) returns (r: Result<Summary>)
    requires db.Valid()
    modifies db
    ensures db.Valid() && db.teams == old(db.teams) && db.tasks == old(db.tasks)
    ensures id !in old(db.users) ==> r == Err(NotFound("User not found")) && db.users == old(db.users)
    ensures id in old(db.users) ==>
      && db.users == old(db.users)[id := PatchUser(old(db.users)[id], patch)]
      && r == Ok(SummaryOf(id, db.users[id]))
    ensures id in old(db.users) && old(RefsSound(db.users, db.teams)) ==>
      (RefsSound(db.users, db.teams) <==> PatchKeepsTeamRef(db.teams, id, patch))
  {
    if id !in db.users {
      return Err(NotFound("User not found"));
    }
    ghost var users0 := db.users;
    var user := db.users[id];
    user := user.(name := OrText(patch.name, user.name));
    user := user.(email := OrText(patch.email, user.email));
    user := user.(role := patch.role.GetOr(user.role));
    if patch.teamId.Some? {
      user := user.(teamId := patch.teamId.value);
    }
    db.users := db.users[id := user];
    if RefsSound(users0, db.teams) {
      PatchKeepsRefsSound(users0, db.teams, id, patch);
    }
    r := Ok(SummaryOf(id, user));
  }

  /** DELETE /users/:id: removes the user record only. */
  method DeleteUser(db: Db, id: UserId) returns (r: Result<string>)
    requires db.Valid()
    modifies db
    ensures db.Valid() && db.teams == old(db.teams) && db.tasks == old(db.tasks)
    ensures id !in old(db.users) ==> r == Err(NotFound("User not found")) && db.users == old(db.users)
    ensures id in old(db.users) ==> r == Ok("User removed") && db.users == old(db.users) - {id}
    ensures old(RefsSound(db.users, db.teams)) ==> RefsSound(db.users, db.teams)
  {
    if id !in db.users {
      return Err(NotFound("User not found"));
    }
    ghost var users0 := db.users;
    db.users := db.users - {id};
    if RefsSound(users0, db.teams) {
      DeleteUserKeepsRefsSound(users0, db.teams, id);
    }
    r := Ok("User removed");
  }
}
