/** The permission service: who may view, edit or administer a TODO or a team. It only reads the
    repositories, so every operation is a function of what they hold. */
module PermissionService {
  import opened Wrappers
  import opened DomainTeam
  import DomainTodo
  import Authorization

  /** What the service reads: the TODO repository's GetByID and GetSharedTeams, and the team
      repository's GetMember. A TODO id with no entry in `sharedTeams` is a GetSharedTeams query
      that failed; a (team, user) pair with no entry in `members` is a GetMember that failed. */
  datatype Repos = Repos(todos: map<string, DomainTodo.TodoView>, sharedTeams: map<string, seq<string>>,
                         members: Authorization.Members)

  /** The role table of hasTeamPermission, written out separately from the middleware's. */
  const TeamRolePermissions: map<Role, seq<string>> := map[
    RoleMember := ["view", "edit"],
    RoleAdmin := ["view", "edit", "admin"],
    RoleOwner := ["view", "edit", "admin"]]

  /** hasTeamPermission: the role's list in the table contains the permission. */
  function HasTeamPermission(role: Role, requiredPermission: string): (b: bool)
    ensures b ==> role in {RoleMember, RoleAdmin, RoleOwner}
    ensures b ==> requiredPermission in {"view", "edit", "admin"}
  {
    role in TeamRolePermissions && requiredPermission in TeamRolePermissions[role]
  }

  /** The service's table and the interceptor's table grant the same permissions to every role. */
  lemma HasTeamPermissionAgrees(role: Role, requiredPermission: string)
    ensures HasTeamPermission(role, requiredPermission) == Authorization.HasPermission(role, requiredPermission)
  {
  }

  /** Whether `userId` is a member of a team in `teams` and its role grants the permission:
      the loop over the shared teams, which skips the teams the user is not a member of. */
  function AnyTeamGrants(teams: seq<string>, userId: string, requiredPermission: string, members: Authorization.Members): (b: bool)
    ensures b <==> exists i :: 0 <= i < |teams| && (teams[i], userId) in members
                               && HasTeamPermission(members[(teams[i], userId)].role, requiredPermission)
  {
    if |teams| == 0 then false
    else if (teams[0], userId) in members && HasTeamPermission(members[(teams[0], userId)].role, requiredPermission) then
      true
    else
      var rest := AnyTeamGrants(teams[1..], userId, requiredPermission, members);
      assert forall i :: 1 <= i < |teams| ==> teams[i] == teams[1..][i - 1];
      rest
  }

  /** CheckTODOPermission. Its checks in order: both ids present (InvalidArgument), the TODO exists
      (NotFound), the caller owns it (allowed whatever the permission), the shared teams can be
      read (Internal), and one of them has the caller as a member whose role grants the permission
      (PermissionDenied otherwise). */
  function CheckTodoPermission(userId: string, todoId: string, requiredPermission: string, repos: Repos): (r: Outcome)
    ensures userId == "" || todoId == "" ==> r == Fail(InvalidArgument)
    ensures userId != "" && todoId != "" && todoId !in repos.todos ==> r == Fail(NotFound)
    ensures userId != "" && todoId != "" && todoId in repos.todos && repos.todos[todoId].userId == userId ==>
              r == Pass
    ensures userId != "" && todoId != "" && todoId in repos.todos && repos.todos[todoId].userId != userId ==>
              if todoId !in repos.sharedTeams then r == Fail(Internal)
              else
                && (r == Pass <==> exists i :: 0 <= i < |repos.sharedTeams[todoId]|
                                     && (repos.sharedTeams[todoId][i], userId) in repos.members
                                     && HasTeamPermission(repos.members[(repos.sharedTeams[todoId][i], userId)].role,
                                                          requiredPermission))
                && (r != Pass ==> r == Fail(PermissionDenied))
  {
    if userId == "" || todoId == "" then Fail(InvalidArgument)
    else if todoId !in repos.todos then Fail(NotFound)
    else if repos.todos[todoId].userId == userId then Pass
    else if todoId !in repos.sharedTeams then Fail(Internal)
    else if AnyTeamGrants(repos.sharedTeams[todoId], userId, requiredPermission, repos.members) then Pass
    else Fail(PermissionDenied)
  }

  /** CheckTeamPermission: both ids present (InvalidArgument), then a member (PermissionDenied),
      then a role granting the permission (PermissionDenied). */
  function CheckTeamPermission(userId: string, teamId: string, requiredPermission: string,
                               members: Authorization.Members): (r: Outcome)
    ensures userId == "" || teamId == "" ==> r == Fail(InvalidArgument)
    ensures userId != "" && teamId != "" ==>
              (r == Pass <==> (teamId, userId) in members && HasTeamPermission(members[(teamId, userId)].role, requiredPermission))
              && (r != Pass ==> r == Fail(PermissionDenied))
  {
    if userId == "" || teamId == "" then Fail(InvalidArgument)
    else if (teamId, userId) !in members then Fail(PermissionDenied)
    else if !HasTeamPermission(members[(teamId, userId)].role, requiredPermission) then Fail(PermissionDenied)
    else Pass
  }

  /** For a team request with both ids present the service reaches the interceptor's verdict. */
  lemma TeamCheckAgreesWithInterceptor(userId: string, teamId: string, requiredPermission: string,
                                       members: Authorization.Members, resourceId: string)
    requires userId != "" && teamId != ""
    ensures CheckTeamPermission(userId, teamId, requiredPermission, members)
            == Authorization.CheckAuthorization(userId, resourceId, teamId, requiredPermission, members)
  {
    if (teamId, userId) in members {
      HasTeamPermissionAgrees(members[(teamId, userId)].role, requiredPermission);
    }
  }

  function CanCreateTodoInTeam(userId: string, teamId: string, members: Authorization.Members): Outcome {
    CheckTeamPermission(userId, teamId, "edit", members)
  }

  function CanViewTodo(userId: string, todoId: string, repos: Repos): Outcome {
    CheckTodoPermission(userId, todoId, "view", repos)
  }

  function CanEditTodo(userId: string, todoId: string, repos: Repos): Outcome {
    CheckTodoPermission(userId, todoId, "edit", repos)
  }

  function CanDeleteTodo(userId: string, todoId: string, repos: Repos): Outcome {
    CheckTodoPermission(userId, todoId, "edit", repos)
  }

  function CanManageTeam(userId: string, teamId: string, members: Authorization.Members): Outcome {
    CheckTeamPermission(userId, teamId, "admin", members)
  }

  /** The Can* checks are nested as their permissions are: who may edit a TODO may view it, who
      may delete it is exactly who may edit it, and who may manage a team may create TODOs in it. */
  lemma {:induction false} CanChecksNested(userId: string, todoId: string, teamId: string, repos: Repos)
    ensures CanEditTodo(userId, todoId, repos) == Pass ==> CanViewTodo(userId, todoId, repos) == Pass
    ensures CanDeleteTodo(userId, todoId, repos) == CanEditTodo(userId, todoId, repos)
    ensures CanManageTeam(userId, teamId, repos.members) == Pass ==> CanCreateTodoInTeam(userId, teamId, repos.members) == Pass
  {
    if CanEditTodo(userId, todoId, repos) == Pass && userId != "" && todoId != ""
       && todoId in repos.todos && repos.todos[todoId].userId != userId {
      var teams := repos.sharedTeams[todoId];
      var i :| 0 <= i < |teams| && (teams[i], userId) in repos.members
               && HasTeamPermission(repos.members[(teams[i], userId)].role, "edit");
      assert HasTeamPermission(repos.members[(teams[i], userId)].role, "view");
    }
  }

  /** A non-owner's access comes only from the shared teams they belong to: sharing the TODO with
      one more team the user is not a member of changes no verdict. */
  lemma NonMemberTeamIrrelevant(userId: string, todoId: string, requiredPermission: string, repos: Repos, teamId: string)
    requires todoId in repos.sharedTeams && (teamId, userId) !in repos.members
    ensures var more := repos.(sharedTeams := repos.sharedTeams[todoId := repos.sharedTeams[todoId] + [teamId]]);
            CheckTodoPermission(userId, todoId, requiredPermission, more)
            == CheckTodoPermission(userId, todoId, requiredPermission, repos)
  {
    var teams := repos.sharedTeams[todoId];
    var more := teams + [teamId];
    assert forall i :: 0 <= i < |teams| ==> more[i] == teams[i];
  }

  /** IsTeamOwner: the GetMember error for a non-member, otherwise whether the role is OWNER. */
  function IsTeamOwner(userId: string, teamId: string, members: Authorization.Members): (r: Result<bool>)
    ensures r.Ok? <==> (teamId, userId) in members
    ensures r.Err? ==> r.code == Unknown
    ensures r.Ok? ==> (r.value <==> members[(teamId, userId)].role == RoleOwner)
  {
    if (teamId, userId) !in members then Err(Unknown) else Ok(members[(teamId, userId)].role == RoleOwner)
  }

  /** IsTeamAdmin: the GetMember error for a non-member, otherwise whether the role is ADMIN or OWNER. */
  function IsTeamAdmin(userId: string, teamId: string, members: Authorization.Members): (r: Result<bool>)
    ensures r.Ok? <==> (teamId, userId) in members
    ensures r.Err? ==> r.code == Unknown
    ensures r.Ok? ==> (r.value <==> members[(teamId, userId)].role in {RoleAdmin, RoleOwner})
  {
    if (teamId, userId) !in members then Err(Unknown)
    else Ok(members[(teamId, userId)].role == RoleAdmin || members[(teamId, userId)].role == RoleOwner)
  }

  /** An owner is an admin, and an admin passes the team management check. */
  lemma OwnerIsAdminIsManager(userId: string, teamId: string, members: Authorization.Members)
    requires userId != "" && teamId != ""
    ensures IsTeamOwner(userId, teamId, members) == Ok(true) ==> IsTeamAdmin(userId, teamId, members) == Ok(true)
    ensures IsTeamAdmin(userId, teamId, members) == Ok(true) <==> CanManageTeam(userId, teamId, members) == Pass
  {
  }
}
