/** frontend/src/pages/Users.jsx: the Admin's user table after a delete or a role edit. */
module UsersPage {
  import opened Wrappers
  import opened Models
  import opened Seqs
  import UserController

  /** The role choices of the edit dialog, in the order it lists them. */
  const RoleChoices: seq<Role> := [TeamMember, TeamLead, Admin]

  /** The dialog offers every role, each once. */
  lemma RoleChoicesAreTheRoles()
    ensures forall r: Role :: r in RoleChoices
    ensures |RoleChoices| == 3 && forall i, j :: 0 <= i < j < |RoleChoices| ==> RoleChoices[i] != RoleChoices[j]
  {
    forall r: Role ensures r in RoleChoices {
      assert r == RoleChoices[0] || r == RoleChoices[1] || r == RoleChoices[2];
    }
  }

  /** The body handleUpdateRole sends: `{ role }` and nothing else. */
  function RoleEditRequest(role: Role): (p: UserController.UserPatch)
    ensures p.role == Some(role) && p.name.None? && p.email.None? && p.teamId.None?
  {
    UserController.UserPatch(None, None, Some(role), None)
  }

  /** A role edit changes the stored role and keeps name, email, password and team. */
  lemma RoleEditKeepsOtherFields(u: User, role: Role)
    ensures UserController.PatchUser(u, RoleEditRequest(role)) == u.(role := role)
  {
  }

  /** The table after handleUpdateRole: the entry whose id matches the response is replaced by it. */
  function AfterRoleEdit(users: seq<Summary>, saved: Summary): (r: seq<Summary>)
    ensures |r| == |users|
    ensures forall i :: 0 <= i < |users| && users[i].id != saved.id ==> r[i] == users[i]
    ensures forall i :: 0 <= i < |users| && users[i].id == saved.id ==> r[i] == saved
  {
    ReplaceById(users, saved.id, saved)
  }

  /**
   * A role edit round trip: the entry of the edited user ends up with the new role and
   * the name, email and team the server kept.
   */
  lemma RoleEditRoundTrip(users: seq<Summary>, id: UserId, stored: User, role: Role, i: nat)
    requires i < |users| && users[i].id == id
    ensures
      var saved := SummaryOf(id, UserController.PatchUser(stored, RoleEditRequest(role)));
      AfterRoleEdit(users, saved)[i] == Doc(id, Profile(stored.name, stored.email, role, stored.teamId))
  {
    RoleEditKeepsOtherFields(stored, role);
  }
}
