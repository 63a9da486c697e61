# TaskNest authorization and team membership, modelled in Dafny

TaskNest is a small task tracker: users belong to at most one team, tasks are assigned
to users within teams, and three roles (Admin, Team Lead, Team Member) decide who may
see and change what. This project models the backend's role-scoped rules and its
team-membership bookkeeping, plus the list logic of the four dashboard pages, and proves
properties of them.

- `models.dfy` (module `Models`): the user, team and task records, the role, priority and
  status enums with their defaults, the request payloads, the response summary (a user
  without the password) and the failures. `NewTask` and `NewTeam` are the schema rules
  applied by the store on insert.
- `store.dfy` (module `Store`): the document store as a class `Db` holding one map per
  collection and an id counter; `SetTeamRef` is the bulk `teamId` update. The team
  invariant `RefsSound` says that a user whose `teamId` names a team exists in that
  team's `members` list. The converse is not kept by the code and is not claimed.
- `team_controller.dfy`, `task_controller.dfy`, `user_controller.dfy`,
  `auth_controller.dfy`: one module per controller. Read-only actions are functions or
  methods that change nothing. Actions that change the store are methods that modify
  `db`, stated against the old state.
- `auth_middleware.dfy`, `routes.dfy`: `protect`, `authorize`, and the role list of every
  task, team and user route, checked against a per-role access policy.
- `seqs.dfy` (module `Seqs`): the array `filter`/`map` operations the pages and the team
  diff use.
- `dashboard_page.dfy`, `teams_page.dfy`, `tasks_page.dfy`, `users_page.dfy`: the page
  logic, linked to the backend rules where a page mirrors one.

Which actions keep `RefsSound`:
- `CreateTeam`, `DeleteTeam`, `RegisterUser` and `DeleteUser` keep it.
- `UpdateTeam` keeps it when its save succeeds.
- `UpdateUser` keeps it exactly when the request has no `teamId` key, sets it to null,
  or names a team whose list already holds the user (`UserController.PatchKeepsRefsSound`).

Four lemmas show where it stops:
- `UserController.PatchTeamBreaksRefs`: setting `teamId` through the user patch to a team
  whose list lacks the user breaks it.
- `TeamController.RenameClashBreaksRefs`: a rename onto a taken name fails at save, after
  the reference updates have run. A user the request added is then left pointing at a team
  whose stored list lacks them, which breaks the invariant. Users the request removed only
  lose their team, which the invariant allows.
- `TeamController.MoveLeavesStaleListing` and `UserController.DeleteUserLeavesDanglingMember`:
  the reverse direction fails. A user moved to a second team stays listed in the first,
  and a deleted user stays listed in their team.

On the task board, the status selector of a card is meant for the card's assignee
when that assignee is a Team Member. The page reads the assignee as a populated user. A card
the page takes from a create or a status-update response carries a bare id instead. So a
Team Member who changes the status of their own task loses the selector on that card,
although the server would still accept their next change
(`TasksPage.StatusChangeHidesMemberSelect`). The users page works the same way: after a role
edit it puts the server's reply into its list (`UsersPage.AfterRoleEdit`), and that reply
carries the team as a bare id rather than the populated team. So that user's team name
shows blank until the next fetch.

Opaque collaborators are parameters:
- token verification is `verify: string -> Option<UserId>`;
- the password check is `matches(stored, given)`;
- the clock is `now`;
- fresh document ids come from the store's counter.

## Model

| member | source | states |
|---|---|---|
| `Models.NewTask` | backend/models/Task.js:3-46 | A task is stored exactly when title and description are non-empty and due date, assignee and team are given. Priority defaults to Medium and status to To Do. The fields are those of the request, with the given creator. |
| `Models.NewTeam` | backend/models/Team.js:3-25 | A team is stored exactly when its name is non-empty. An omitted member list is stored empty. The creator is recorded and both timestamps are the creation time. |
| `Store.SetTeamRef` | backend/controllers/teamController.js:26-29 | The bulk update keeps the set of users. Each user whose id is listed gets the new `teamId`; every other user is unchanged. |
| `Store.InsertKeepsNamesUnique` | backend/models/Team.js:5-9 | Inserting a team under a new id, with a name no team holds, keeps team names unique. |
| `Store.ReplaceKeepsNamesUnique` | backend/models/Team.js:5-9 | Saving a team with a name no other team holds keeps team names unique. |
| `TeamController.GetMyTeam` | backend/controllers/teamController.js:48-60 | 404 "You are not assigned to any team" without a `teamId`. 404 "Team not found" when that team is gone. Otherwise the result is exactly that team. |
| `TeamController.UpdatedRefs` | backend/controllers/teamController.js:76-96 | Users only in the old list lose their team. Users only in the new list get this team. Users in both lists or in neither keep their record. |
| `TeamController.ApplyMemberDiff` | backend/controllers/teamController.js:75-96 | The two bulk updates, each skipped when its diff is empty, leave the users exactly as `UpdatedRefs` describes. |
| `TeamController.CreateTeamKeepsRefsSound` | backend/controllers/teamController.js:18-30 | Inserting a team and pointing its listed members at it preserves the team invariant. |
| `TeamController.UpdateTeamKeepsRefsSound` | backend/controllers/teamController.js:83-101 | The two bulk updates followed by replacing the member list preserve the team invariant. |
| `TeamController.DeleteTeamKeepsRefsSound` | backend/controllers/teamController.js:118-126 | Clearing every listed member's reference and then removing the team preserves the team invariant. |
| `TeamController.CreateTeam` | backend/controllers/teamController.js:8-35 | A taken name gives 400 and changes nothing. An empty name is rejected and changes nothing. Otherwise the new team holds exactly the given list and the caller as creator, every listed stored user points at it, all else is unchanged, and the invariant is preserved. |
| `TeamController.UpdateTeam` | backend/controllers/teamController.js:65-105 | An unknown id gives 404 and changes nothing. Otherwise the users change as `UpdatedRefs` says, even when the save then fails. A rename onto another team's name is rejected and leaves the teams unchanged. On success the name is the given truthy name or the old one, the list is replaced wholesale (omitted means empty), and the invariant is preserved. |
| `TeamController.DeleteTeam` | backend/controllers/teamController.js:110-129 | An unknown id gives 404. Otherwise every listed member's `teamId` is cleared, whatever it named, and only that team is removed. The invariant is preserved. |
| `TeamController.MoveLeavesStaleListing` | backend/controllers/teamController.js:25-30 | Creating team B with a member of team A keeps the invariant, yet A's list still names that member. |
| `TeamController.RenameClashBreaksRefs` | backend/controllers/teamController.js:83-101 | A rename that clashes at save, with a member added, leaves that member pointing at a team whose stored list lacks them. |
| `TaskController.GetTasks` | backend/controllers/taskController.js:27-46 | An Admin gets every task. A Team Lead gets exactly the tasks of their own team, or none without a team. A Team Member gets exactly the tasks assigned to them. Every entry is the stored task. |
| `TaskController.MergeUpdate` | backend/controllers/taskController.js:61-75 | Team and creator never change. The status is the request's when given. For a Team Member every other field is kept. For Admin and Team Lead each truthy field replaces the stored one and a falsy field keeps it. |
| `TaskController.MemberChangesOnlyStatus` | backend/controllers/taskController.js:61-66 | A Team Member's update is the stored task with at most a new status; without a status it is the stored task. |
| `TaskController.MergeUpdateIdempotent` | backend/controllers/taskController.js:68-75 | Applying the same update twice stores the same task as applying it once. |
| `TaskController.EmptyUpdateKeepsTask` | backend/controllers/taskController.js:66-74 | An update that carries no field stores the task unchanged, for every role. |
| `TaskController.MayUpdate` | backend/controllers/taskController.js:61-65 | The assignee always passes the ownership check, and only a Team Member can be refused. |
| `TaskController.ListedTasksAreUpdatableByMember` | backend/controllers/taskController.js:40-43 | Every task listed to a Team Member passes the update controller's ownership check. |
| `TaskController.CreateTask` | backend/controllers/taskController.js:7-22 | The stored task is the schema's reading of the request with the caller as creator. It is inserted under a fresh id and users and teams are unchanged. A request the schema refuses changes nothing. |
| `TaskController.UpdateTask` | backend/controllers/taskController.js:51-79 | An unknown id gives 404 and a Team Member who is not the assignee gets 403; both change nothing. Otherwise the task becomes `MergeUpdate` of the caller's role, and nothing else changes. |
| `TaskController.DeleteTask` | backend/controllers/taskController.js:84-96 | An unknown id gives 404 and changes nothing. Otherwise just that task is removed, with no ownership check. |
| `UserController.GetUsers` | backend/controllers/userController.js:8-11 | Every stored user is listed with name, email, role and team, and without the password. |
| `UserController.PatchUser` | backend/controllers/userController.js:19-27 | Truthy name, email and role replace the stored ones, and falsy ones keep them. `teamId` is overwritten exactly when the key is present, null included. The password never changes. |
| `UserController.PatchKeepsRefsSound` | backend/controllers/userController.js:19-27 | From a store that keeps the team invariant, the patched store keeps it exactly when the patch has no `teamId` key, sets it to null, or names a team that already lists the user. |
| `UserController.PatchTeamBreaksRefs` | backend/controllers/userController.js:24-27 | Setting `teamId` through the patch to a team whose list lacks the user breaks the team invariant. |
| `UserController.DeleteUserKeepsRefsSound` | backend/controllers/userController.js:46-51 | Removing a user preserves the team invariant. |
| `UserController.DeleteUserLeavesDanglingMember` | backend/controllers/userController.js:50 | After deleting a user, a team list that named them still does. |
| `UserController.UpdateUser` | backend/controllers/userController.js:16-41 | An unknown id gives 404 and changes nothing. Otherwise only that user changes, to `PatchUser` of the request. Teams and tasks are untouched, and the response is the saved user without the password. From a store that keeps the team invariant, the new store keeps it exactly under the condition of `PatchKeepsRefsSound`. |
| `UserController.DeleteUser` | backend/controllers/userController.js:46-56 | An unknown id gives 404 and changes nothing. Otherwise only that user is removed; team lists are untouched. |
| `AuthController.FirstAccountRole` | backend/controllers/authController.js:57-58 | The role is Admin exactly when the store holds no user, and Team Member otherwise. |
| `AuthController.RegisterUser` | backend/controllers/authController.js:44-84 | A taken email gives 400 and creates no user. Otherwise one user is added with the given name, email and password, the computed role and no team. The response is that user's summary, and the invariant is preserved. |
| `AuthController.AuthUser` | backend/controllers/authController.js:8-39 | Every failure is 401 "Invalid email or password": an unknown email and a wrong password fail alike. Success returns the summary of a stored user with that email whose password matches, and a matching password of the found user succeeds. |
| `AuthController.GetUserProfile` | backend/controllers/authController.js:100-115 | The result is the caller's stored summary, or 404 "User not found" when the record is gone. |
| `AuthMiddleware.Protect` | backend/middleware/authMiddleware.js:5-26 | No cookie or an empty one gives 401 "no token". A token that fails verification gives 401 "token failed". A verified token admits the request with the summary of the user it names, or with no user when that record is gone. |
| `AuthMiddleware.Authorize` | backend/middleware/authMiddleware.js:28-36 | The request passes exactly when the caller's role is listed. Otherwise it gets 403 with the role named in the message. |
| `Routes.RouteRoles` | backend/routes/taskRoutes.js:13-19 | Exactly the task list, the task update and the own-team route have no role gate. Every role list admits Admin, and none admits Team Member. |
| `Routes.Gate` | backend/routes/teamRoutes.js:14-22 | `protect` runs, then `authorize` when the route has a role list. Without a cookie the result is 401 "no token". A request passes only with a stored user, and the caller is then that user's summary. Every failure is a 401, a 403 or the server error of a missing user record. |
| `Routes.GateFollowsPolicy` | backend/routes/taskRoutes.js:11-19 | A request passes the middleware chain exactly when its cookie names a stored user whose role the per-role policy permits on that route. Without a cookie every route gives 401. An authenticated caller outside the policy gets 403. |
| `Routes.TaskRoutesGate` | backend/routes/taskRoutes.js:13-19 | Listing and updating tasks pass any authenticated caller. Creating and deleting pass Admin and Team Lead only. |
| `Routes.TeamRoutesGate` | backend/routes/teamRoutes.js:12-22 | Create, update and delete pass Admin only. The team list passes Admin and Team Lead. The own-team route passes everyone authenticated. Every route is protected. |
| `Routes.UserRoutesGate` | backend/routes/userRoutes.js:10-17 | Every user route passes Admin only: Team Lead and Team Member get 403, and a missing cookie gives 401. |
| `Seqs.Minus` | backend/controllers/teamController.js:79-80 | The diff keeps exactly the ids of the first list that the second lacks. |
| `Seqs.MinusAppend` | frontend/src/pages/Teams.jsx:117 | Filtering distributes over concatenation, so what is kept keeps its order. |
| `Seqs.MinusDisjoint` | frontend/src/pages/Teams.jsx:117 | A filter that drops none of the list's elements returns the list unchanged. |
| `Seqs.RemoveById` | frontend/src/pages/Teams.jsx:107 | After a delete, no entry has that id and every other entry remains. |
| `Seqs.RemoveByIdAppend` | frontend/src/pages/Users.jsx:29 | Removal by id distributes over concatenation, so the others keep their order. |
| `Seqs.RemoveByIdAbsent` | frontend/src/pages/Users.jsx:25-33 | Removing an id no entry has leaves the list exactly as it was. |
| `Seqs.ReplaceById` | frontend/src/pages/Tasks.jsx:117-124 | The list keeps its length. The entry with the id becomes the server copy, and every other entry stays in place. |
| `Seqs.Matching` | frontend/src/pages/Tasks.jsx:156-160 | The status or priority filter holds exactly the tasks with that status or priority. |
| `Seqs.Positions` | frontend/src/pages/Dashboard.jsx:21-23 | The reference count: the positions of the list holding a task with that status or priority. |
| `Seqs.MatchingCount` | frontend/src/pages/Dashboard.jsx:21-23 | A filter's length equals the number of positions holding a task with the key. |
| `Seqs.PositionsAppend` | frontend/src/pages/Tasks.jsx:92 | Appending a task adds its own position to the matching positions when it has the key, and no other. |
| `Seqs.StatusPartition` | frontend/src/pages/Dashboard.jsx:20-22 | The four status counts add up to the number of tasks. |
| `Seqs.MatchingAppend` | frontend/src/pages/Tasks.jsx:92 | Appending a task extends only the filters it matches, at the end. |
| `DashboardPage.FetchStats` | frontend/src/pages/Dashboard.jsx:17-24 | `total` is the number of tasks. `completed` is the number of positions holding a Completed task, and `highPriority` the number holding a High-priority task; both are at most `total`. `pending` is `total - completed`, which is the count of tasks in the other three statuses. An empty list gives all zeros. |
| `TeamsPage.OpenCreateModal` | frontend/src/pages/Teams.jsx:59-64 | The create dialog opens with no team, an empty name and an empty selection. |
| `TeamsPage.OpenEditModal` | frontend/src/pages/Teams.jsx:66-72 | The edit dialog preselects exactly the team's current members and its name. |
| `TeamsPage.ToggleMember` | frontend/src/pages/Teams.jsx:115-121 | Toggling flips the membership of that id only. An unselected id is appended at the end, and a selected one is removed everywhere. |
| `TeamsPage.ToggleTwice` | frontend/src/pages/Teams.jsx:115-121 | Toggling an unselected id twice returns the original selection exactly. |
| `TeamsPage.AfterSave` | frontend/src/pages/Teams.jsx:74-101 | After an update, the edited team is replaced by the server copy in place and the others are unchanged. After a create, the new team is appended. |
| `TeamsPage.UntouchedSelectionKeepsRefs` | frontend/src/pages/Teams.jsx:79-82 | Saving the edit dialog without toggling anyone leaves every user's team reference unchanged. |
| `TasksPage.ColumnsPartitionTasks` | frontend/src/pages/Tasks.jsx:126-160 | The columns are all four statuses. Each task is in exactly the column of its status, and the column counts add up to the task count. |
| `TasksPage.ShownAssignee` | frontend/src/pages/Tasks.jsx:169 | The page reads an assignee id only on a card whose assignee is populated, and then it is the task's assignee. |
| `TasksPage.ShowStatusSelect` | frontend/src/pages/Tasks.jsx:169 | Anyone but a Team Member sees the selector. Wherever it is shown, the server's ownership check would pass. |
| `TasksPage.StatusSelectMatchesUpdateRule` | frontend/src/pages/Tasks.jsx:169 | The selector is never shown where the backend would refuse the update. On a card from the task list, with a populated assignee, it is shown exactly where the backend would accept it. |
| `TasksPage.StatusChangeHidesMemberSelect` | frontend/src/pages/Tasks.jsx:117-120 | After a Team Member changes the status of their own task, the card holds the saved task with a bare assignee id. The server would still accept their update, but the selector is hidden. |
| `TasksPage.StatusRequest` | frontend/src/pages/Tasks.jsx:119 | The status update sends the status and no other field. |
| `TasksPage.StatusRequestChangesOnlyStatus` | frontend/src/pages/Tasks.jsx:117-120 | For every role, the status-only request changes the task's status and nothing else. |
| `TasksPage.CreatedTaskJoinsItsColumn` | frontend/src/pages/Tasks.jsx:92 | An appended task shows at the end of its own column, and the other columns are unchanged. |
| `TasksPage.ResetForm` | frontend/src/pages/Tasks.jsx:100-115 | Texts are empty and the defaults are Medium and To Do. An Admin gets no assignee and no team; anyone else gets their own id and team. |
| `TasksPage.CreatePayload` | frontend/src/pages/Tasks.jsx:85-92 | The form is sent as it is, except that a Team Member's empty assignee becomes themselves. |
| `TasksPage.ShowNewTaskButton` | frontend/src/pages/Tasks.jsx:139 | The New Task button is hidden from a Team Member only. |
| `TasksPage.NewTaskButtonMatchesRoute` | frontend/src/pages/Tasks.jsx:139 | The New Task button is shown exactly to the roles the task-creation route admits. |
| `TasksPage.FilledResetFormIsAccepted` | frontend/src/pages/Tasks.jsx:100-109 | The task-creation route admits a Team Lead. For a Team Lead with a team who fills title, description and due date, the schema accepts the payload. It is assigned to them, in their team, with priority Medium and status To Do. |
| `UsersPage.RoleChoicesAreTheRoles` | frontend/src/pages/Users.jsx:118-126 | The role dialog offers every role exactly once. |
| `UsersPage.RoleEditRequest` | frontend/src/pages/Users.jsx:39 | A role edit sends only the role. |
| `UsersPage.RoleEditKeepsOtherFields` | frontend/src/pages/Users.jsx:36-40 | A role edit changes the stored role. Name, email, password and team are kept by the patch rules. |
| `UsersPage.AfterRoleEdit` | frontend/src/pages/Users.jsx:40 | The list keeps its length. Entries whose id matches the response become the response, and the others are unchanged. |
| `UsersPage.RoleEditRoundTrip` | frontend/src/pages/Users.jsx:36-44 | After a role edit, the edited user's entry carries the new role and the name, email and team the server kept. |

## Left out

- Token signing and verification, password hashing and comparison: opaque parameters (`verify`, `matches`); the token is represented by the user id a response carries.
- `backend/models/User.js` is not part of this model. Its validators, any unique index on email and its password-hashing hook are not modelled. A registered user starts with no team, and the user patch does not reject a duplicate email.
- `AuthController.AuthUser`: with several users sharing an email, the store's `findOne` returns one of them; the model picks any one, so it states nothing about which.
- `AuthController.RegisterUser`: the "Invalid user data" branch is not modelled, because the store either returns the created user or throws.
- The document store's internals are not modelled: query execution, `populate` joins, ObjectId casting, document order. Because `populate` is left out, a team's member list is returned as ids, and users that no longer exist are not dropped from it. List results from the backend are maps, so their order is left out.
- `Models.NewTask`: an explicit null priority or status on create is read like an absent one and gets Medium or To Do. The store applies a schema default only to an absent value; it would keep the null or refuse it. The request type does not tell absent from null for task fields, which is right for updates, where both keep the stored value.
- `TasksPage.ShownAssignee`: a populated assignee whose user record is gone reads as null, which hides the selector; the model takes a populated card's assignee to be the stored id.
- Any value outside an enum (status, priority, role) cannot occur, because the enums are Dafny datatypes. The store's rejection of such a value at save is therefore not modelled.
- Task timestamps are not modelled. On a team save `updatedAt` is always refreshed, although the store skips the refresh when no path changed.
- Async execution, the missing transactions and racing requests: each controller call is one sequential method.
- `Routes.GateFollowsPolicy`: a verified token whose user was deleted is modelled as a server error before any controller runs. On the task update route the controller's 404 for a missing task would come first; that order is not modelled.
- `TeamController.UpdateTeam`: the claim that it keeps the team invariant covers a successful save only. When the save fails on a name clash, the reference updates have already run and the invariant can break, as `TeamController.RenameClashBreaksRefs` shows.
- `TeamController.UpdateTeam`: a request without a member list reads as an empty list, as the controller's diff does. What the store then saves for the list field, which the controller sets to `undefined`, is modelled as that empty list too.
- The `getTeams` controller returns every team unchanged; only its route gate is modelled.
- `logoutUser`, `backend/server.js` and `backend/routes/authRoutes.js`: server and cookie plumbing with no role logic.
- Logging, rendering, styling and the pages' `fetch*` network calls. `frontend/src/components/Sidebar.jsx`, `frontend/src/components/Layout.jsx`, `frontend/src/App.jsx` and `frontend/src/context/AuthContext.jsx` are not part of this model.
- A store-level failure during the bulk reference updates, such as a lost connection: the model's updates always complete.
