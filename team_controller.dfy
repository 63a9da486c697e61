/**
 * backend/controllers/teamController.js: creating, reading, updating and deleting teams,
 * and keeping each user's `teamId` back-reference in step with a team's member list.
 */
module TeamController {
  import opened Wrappers
  import opened Models
  import opened Store
  import Seqs

  /** GET /teams/my: the caller's own team, looked up through the caller's `teamId`. */
  function GetMyTeam(teams: map<TeamId, Team>, caller: Summary): (r: Result<Doc<Team>>)
    ensures caller.fields.teamId.None? ==> r == Err(NotFound("You are not assigned to any team"))
    ensures caller.fields.teamId.Some? && caller.fields.teamId.value !in teams ==>
      r == Err(NotFound("Team not found"))
    ensures r.Ok? <==> caller.fields.teamId.Some? && caller.fields.teamId.value in teams
    ensures r.Ok? ==> r.value.id == caller.fields.teamId.value && r.value.fields == teams[r.value.id]
  {
    match caller.fields.teamId
    case None => Err(NotFound("You are not assigned to any team"))
    case Some(t) => if t in teams then Ok(Doc(t, teams[t])) else Err(NotFound("Team not found"))
  }

  /**
   * The users after the two bulk updates of updateTeam: members dropped from the list
   * lose their team, members new to the list get this team, and everyone else
   * (in both lists or in neither) keeps the record they had.
   */
  function UpdatedRefs(users: map<UserId, User>, id: TeamId, current: seq<UserId>, requested: seq<UserId>)
    : (r: map<UserId, User>)
    ensures r.Keys == users.Keys
    ensures forall u :: u in users && u in current && u !in requested ==> r[u] == users[u].(teamId := None)
    ensures forall u :: u in users && u in requested && u !in current ==> r[u] == users[u].(teamId := Some(id))
    ensures forall u :: u in users && (u in current <==> u in requested) ==> r[u] == users[u]
  {
    var cleared := SetTeamRef(users, IdSet(Seqs.Minus(current, requested)), None);
    SetTeamRef(cleared, IdSet(Seqs.Minus(requested, current)), Some(id))
  }

  /** createTeam keeps the team invariant. */
  lemma CreateTeamKeepsRefsSound(users: map<UserId, User>, teams: map<TeamId, Team>, id: TeamId, team: Team)
    requires RefsSound(users, teams) && id !in teams
    ensures RefsSound(SetTeamRef(users, IdSet(team.members), Some(id)), teams[id := team])
  {
    var users' := SetTeamRef(users, IdSet(team.members), Some(id));
    var teams' := teams[id := team];
    forall u | u in users' && users'[u].teamId.Some?
      ensures users'[u].teamId.value in teams' && u in teams'[users'[u].teamId.value].members
    {
      if u !in team.members {
        assert users'[u] == users[u];
        assert users[u].teamId.value != id;
      }
    }
  }

  /** updateTeam, when its save succeeds, keeps the team invariant. */
  lemma UpdateTeamKeepsRefsSound(users: map<UserId, User>, teams: map<TeamId, Team>, id: TeamId, team: Team)
    requires RefsSound(users, teams) && id in teams
    ensures RefsSound(UpdatedRefs(users, id, teams[id].members, team.members), teams[id := team])
  {
    var current := teams[id].members;
    var users' := UpdatedRefs(users, id, current, team.members);
    var teams' := teams[id := team];
    forall u | u in users' && users'[u].teamId.Some?
      ensures users'[u].teamId.value in teams' && u in teams'[users'[u].teamId.value].members
    {
      if u in current <==> u in team.members {
        assert users'[u] == users[u];
      }
    }
  }

  /** deleteTeam keeps the team invariant. */
  lemma DeleteTeamKeepsRefsSound(users: map<UserId, User>, teams: map<TeamId, Team>, id: TeamId)
    requires RefsSound(users, teams) && id in teams
    ensures RefsSound(SetTeamRef(users, IdSet(teams[id].members), None), teams - {id})
  {
    var users' := SetTeamRef(users, IdSet(teams[id].members), None);
    forall u | u in users' && users'[u].teamId.Some?
      ensures users'[u].teamId.value in teams - {id} && u in (teams - {id})[users'[u].teamId.value].members
    {
      assert u !in teams[id].members;
      assert users'[u] == users[u];
    }
  }

  /** POST /teams. */
  method CreateTeam(db: Db, caller: Summary, name: string, members: Option<seq<UserId>>, now: Date)
    returns (r: Result<Doc<Team>>)
    requires db.Valid()
    modifies db
    ensures db.Valid() && db.tasks == old(db.tasks)
    ensures NameTaken(old(db.teams), name, None) ==> r == Err(BadRequest("Team already exists"))
    ensures r.Ok? <==> !NameTaken(old(db.teams), name, None) && name != ""
    ensures r.Err? ==> db.users == old(db.users) && db.teams == old(db.teams)
    ensures r.Ok? ==>
      && r.value.id !in old(db.teams)
      && r.value.fields == Team(name, members.GetOr([]), caller.id, now, now)
      && db.teams == old(db.teams)[r.value.id := r.value.fields]
      && db.users == SetTeamRef(old(db.users), IdSet(members.GetOr([])), Some(r.value.id))
    ensures old(RefsSound(db.users, db.teams)) ==> RefsSound(db.users, db.teams)
  {
    if NameTaken(db.teams, name, None) {
      return Err(BadRequest("Team already exists"));
    }
    var created := NewTeam(name, members, caller.id, now);
    if created.Err? {
      return Err(created.failure);
    }
    ghost var users0, teams0 := db.users, db.teams;
    var id := db.FreshId();
    var team := created.value;
    InsertKeepsNamesUnique(db.teams, id, team);
    db.teams := db.teams[id := team];
    if members.Some? && |members.value| > 0 {
      db.users := SetTeamRef(db.users, IdSet(members.value), Some(id));
    } else {
      assert SetTeamRef(db.users, IdSet(team.members), Some(id)) == db.users;
    }
    if RefsSound(users0, teams0) {
      CreateTeamKeepsRefsSound(users0, teams0, id, team);
    }
    r := Ok(Doc(id, team));
  }

  /**
   * The two bulk updates of updateTeam: members dropped from the list lose their team,
   * then members new to the list get this one. An empty diff skips its update.
   */
  method ApplyMemberDiff(db: Db, id: TeamId, current: seq<UserId>, requested: seq<UserId>)
    modifies db`users
    ensures db.users == UpdatedRefs(old(db.users), id, current, requested)
  {
    var membersToRemove := Seqs.Minus(current, requested);
    var membersToAdd := Seqs.Minus(requested, current);
    var users := db.users;
    if |membersToRemove| > 0 {
      users := SetTeamRef(users, IdSet(membersToRemove), None);
    } else {
      assert SetTeamRef(users, IdSet(membersToRemove), None) == users;
    }
    if |membersToAdd| > 0 {
      users := SetTeamRef(users, IdSet(membersToAdd), Some(id));
    } else {
      assert SetTeamRef(users, IdSet(membersToAdd), Some(id)) == users;
    }
    db.users := users;
  }

  /** PUT /teams/:id: rename (an absent or empty name keeps the old one) and replace the member list. */
  method UpdateTeam(db: Db, id: TeamId, name: Option<string>, members: Option<seq<UserId>>, now: Date)
    returns (r: Result<Doc<Team>>)
    requires db.Valid()
    modifies db
    ensures db.Valid() && db.tasks == old(db.tasks)
    ensures id !in old(db.teams) ==>
      r == Err(NotFound("Team not found")) && db.users == old(db.users) && db.teams == old(db.teams)
    ensures id in old(db.teams) ==>
      db.users == UpdatedRefs(old(db.users), id, old(db.teams)[id].members, members.GetOr([]))
    ensures id in old(db.teams) ==>
      var renamed := OrText(name, old(db.teams)[id].name);
      if NameTaken(old(db.teams), renamed, Some(id)) then
        r == Err(Rejected("E11000 duplicate key error: name")) && db.teams == old(db.teams)
      else
        && r == Ok(Doc(id, old(db.teams)[id].(name := renamed, members := members.GetOr([]), updatedAt := now)))
        && db.teams == old(db.teams)[id := r.value.fields]
    ensures old(RefsSound(db.users, db.teams)) && r.Ok? ==> RefsSound(db.users, db.teams)
  {
    if id !in db.teams {
      return Err(NotFound("Team not found"));
    }
    ghost var users0 := db.users;
    var team := db.teams[id];
    var requested := members.GetOr([]);
    ApplyMemberDiff(db, id, team.members, requested);
    team := team.(name := OrText(name, team.name));
    team := team.(members := requested);
    team := team.(updatedAt := now);
    if NameTaken(db.teams, team.name, Some(id)) {
      return Err(Rejected("E11000 duplicate key error: name"));
    }
    if RefsSound(users0, db.teams) {
      UpdateTeamKeepsRefsSound(users0, db.teams, id, team);
    }
    ReplaceKeepsNamesUnique(db.teams, id, team);
    db.teams := db.teams[id := team];
    r := Ok(Doc(id, team));
  }

  /** DELETE /teams/:id: clear the members' references, then remove the team. */
  method DeleteTeam(db: Db, id: TeamId) returns (r: Result<string>)
    requires db.Valid()
    modifies db
    ensures db.Valid() && db.tasks == old(db.tasks)
    ensures id !in old(db.teams) ==>
      r == Err(NotFound("Team not found")) && db.users == old(db.users) && db.teams == old(db.teams)
    ensures id in old(db.teams) ==>
      && r == Ok("Team removed")
      && db.users == SetTeamRef(old(db.users), IdSet(old(db.teams)[id].members), None)
      && db.teams == old(db.teams) - {id}
    ensures old(RefsSound(db.users, db.teams)) ==> RefsSound(db.users, db.teams)
  {
    if id !in db.teams {
      return Err(NotFound("Team not found"));
    }
    ghost var users0, teams0 := db.users, db.teams;
    var team := db.teams[id];
    if |team.members| > 0 {
      db.users := SetTeamRef(db.users, IdSet(team.members), None);
    } else {
      assert SetTeamRef(db.users, IdSet(team.members), None) == db.users;
    }
    db.teams := db.teams - {id};
    if RefsSound(users0, teams0) {
      DeleteTeamKeepsRefsSound(users0, teams0, id);
    }
    r := Ok("Team removed");
  }

  /**
   * Moving a user into a second team leaves them listed in the first: the reference
   * follows the new team while the old list still names them.
   */
  lemma MoveLeavesStaleListing()
    ensures
      var users := map[5 := User("Ann", "ann@example.com", "h", TeamMember, Some(1))];
      var teams := map[1 := Team("A", [5], 0, 0, 0)];
      var users' := SetTeamRef(users, IdSet([5]), Some(2));
      var teams' := teams[2 := Team("B", [5], 0, 0, 0)];
      && RefsSound(users, teams) && RefsSound(users', teams')
      && users'[5].teamId == Some(2) && 5 in teams'[1].members
  {
  }

  /**
   * A rename onto a taken name fails at save, after the bulk updates ran: a member
   * added in that request then points at a team whose stored list lacks them.
   */
  lemma RenameClashBreaksRefs()
    ensures
      var users := map[5 := User("Ann", "ann@example.com", "h", TeamMember, None)];
      var teams := map[1 := Team("A", [], 0, 0, 0), 2 := Team("B", [], 0, 0, 0)];
      && RefsSound(users, teams)
      && NameTaken(teams, OrText(Some("B"), teams[1].name), Some(1))
      && !RefsSound(UpdatedRefs(users, 1, teams[1].members, [5]), teams)
  {
    var users' := UpdatedRefs(map[5 := User("Ann", "ann@example.com", "h", TeamMember, None)], 1, [], [5]);
    assert users'[5].teamId == Some(1);
  }
}
