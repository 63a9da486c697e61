/**
 * The document store the controllers work against: one collection per model, each a map
 * from document id to record. Every controller call runs as one sequential step over it.
 */
module Store {
  import opened Wrappers
  import opened Models

  /**
   * `User.updateMany({ _id: { $in: ids } }, { $set: { teamId: v } })`: every stored user
   * whose id is in `ids` gets `teamId := v`; ids with no stored user are ignored.
   */
  function SetTeamRef(users: map<UserId, User>, ids: set<UserId>, v: Option<TeamId>): (r: map<UserId, User>)
    ensures r.Keys == users.Keys
    ensures forall u :: u in r ==> r[u] == if u in ids then users[u].(teamId := v) else users[u]
  {
    map u | u in users :: if u in ids then users[u].(teamId := v) else users[u]
  }

  /** The set of ids a list names, as `$in` reads it. */
  function IdSet(ids: seq<UserId>): (s: set<UserId>)
    ensures forall u :: u in s <==> u in ids
  {
    set u | u in ids
  }

  /** Some team other than `except` already holds `name`. */
  predicate NameTaken(teams: map<TeamId, Team>, name: string, except: Option<TeamId>) {
    exists t :: t in teams && teams[t].name == name && Some(t) != except
  }

  /** The unique index on Team.name. */
  predicate NamesUnique(teams: map<TeamId, Team>) {
    forall a, b :: a in teams && b in teams && teams[a].name == teams[b].name ==> a == b
  }

  /** Inserting a team under a new id with a name no team holds keeps names unique. */
  lemma InsertKeepsNamesUnique(teams: map<TeamId, Team>, id: TeamId, team: Team)
    requires NamesUnique(teams) && id !in teams && !NameTaken(teams, team.name, None)
    ensures NamesUnique(teams[id := team])
  {
  }

  /** Replacing a team by a record whose name no other team holds keeps names unique. */
  lemma ReplaceKeepsNamesUnique(teams: map<TeamId, Team>, id: TeamId, team: Team)
    requires NamesUnique(teams) && id in teams && !NameTaken(teams, team.name, Some(id))
    ensures NamesUnique(teams[id := team])
  {
  }

  /**
   * The one-directional team invariant: a user whose `teamId` names a team is listed in
   * that team's members. The converse (every listed member points back) is not kept
   * by the controllers and is not claimed.
   */
  ghost predicate RefsSound(users: map<UserId, User>, teams: map<TeamId, Team>) {
    forall u :: u in users && users[u].teamId.Some? ==>
      users[u].teamId.value in teams && u in teams[users[u].teamId.value].members
  }

  class Db {
    var users: map<UserId, User>
    var teams: map<TeamId, Team>
    var tasks: map<TaskId, Task>
    /** Every id handed out so far is below this one. */
    var nextId: nat

    ghost predicate Valid()
      reads this
    {
      && (forall id :: id in users ==> id < nextId)
      && (forall id :: id in teams ==> id < nextId)
      && (forall id :: id in tasks ==> id < nextId)
      && NamesUnique(teams)
    }

    constructor ()
      ensures Valid()
      ensures users == map[] && teams == map[] && tasks == map[]
    {
      users, teams, tasks := map[], map[], map[];
      nextId := 0;
    }

    /** A new document id, used by no collection. */
    method FreshId() returns (id: nat)
      requires Valid()
      modifies this`nextId
      ensures Valid()
      ensures id !in users && id !in teams && id !in tasks
      ensures id == old(nextId) && nextId == id + 1
    {
      id := nextId;
      nextId := nextId + 1;
    }
  }
}
