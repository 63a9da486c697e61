/**
 * frontend/src/pages/Teams.jsx: the team dialog's member selection and the team list
 * the page keeps after a save or a delete.
 */
module TeamsPage {
  import opened Wrappers
  import opened Models
  import opened Seqs
  import TeamController

  /** The dialog state: whether it is open, the team being edited (None: creating), the name and the selection. */
  datatype TeamForm = TeamForm(open: bool, editing: Option<Doc<Team>>, name: string, selected: seq<UserId>)

  /** openCreateModal: an open dialog for a new team with nothing selected. */
  function OpenCreateModal(): (f: TeamForm)
    ensures f.open && f.editing.None? && f.name == "" && f.selected == []
  {
    TeamForm(true, None, "", [])
  }

  /**
   * openEditModal: an open dialog on `team`, preselecting exactly its current members.
   * Only membership of the selection matters: the page reads it with `includes`, and the
   * update controller compares lists by membership alone (see `UpdatedRefs`).
   */
  function OpenEditModal(team: Doc<Team>): (f: TeamForm)
    ensures f.open && f.editing == Some(team) && f.name == team.fields.name
    ensures forall u :: u in f.selected <==> u in team.fields.members
  {
    TeamForm(true, Some(team), team.fields.name, team.fields.members)
  }

  /**
   * toggleMemberSelection: a selected id is removed (every occurrence of it); an
   * unselected one is appended. The membership of every other id is unchanged; as with
   * `OpenEditModal`, membership is all the page and the update controller read.
   */
  function ToggleMember(selected: seq<UserId>, id: UserId): (r: seq<UserId>)
    ensures id in r <==> id !in selected
    ensures forall x :: x != id ==> (x in r <==> x in selected)
    ensures id !in selected ==> r == selected + [id]
  {
    if id in selected then Minus(selected, [id]) else selected + [id]
  }

  /** Toggling an unselected id twice gives back the selection exactly. */
  lemma ToggleTwice(selected: seq<UserId>, id: UserId)
    requires id !in selected
    ensures ToggleMember(ToggleMember(selected, id), id) == selected
  {
    assert id in selected + [id];
    MinusAppend(selected, [id], [id]);
    MinusDisjoint(selected, [id]);
    assert Minus([id], [id]) == [];
  }

  /**
   * The team list after handleSubmit succeeds: an edited team is replaced in place by
   * the server's copy; a created team is appended.
   */
  function AfterSave(teams: seq<Doc<Team>>, editing: Option<Doc<Team>>, saved: Doc<Team>): (r: seq<Doc<Team>>)
    ensures editing.None? ==> r == teams + [saved]
    ensures editing.Some? ==> |r| == |teams|
    ensures editing.Some? ==>
      forall i :: 0 <= i < |teams| ==> r[i] == if teams[i].id == editing.value.id then saved else teams[i]
  {
    match editing
    case Some(team) => ReplaceById(teams, team.id, saved)
    case None => teams + [saved]
  }

  /**
   * Saving the edit dialog without toggling anyone sends the team's own member list,
   * and the update then leaves every user's team reference as it was.
   */
  lemma UntouchedSelectionKeepsRefs(users: map<UserId, User>, team: Doc<Team>)
    ensures TeamController.UpdatedRefs(users, team.id, team.fields.members, OpenEditModal(team).selected) == users
  {
  }
}
