/** The authorization interceptor: public methods, the permission each method requires, what each
    team role may do, and the resource check. The team repository's GetMember is a map from
    (team, user) to the stored membership; a pair without an entry is a failed lookup. */
module Authorization {
  import opened Wrappers
  import opened DomainTeam
  import Text
  import AuthMiddleware

  const PermissionView := "view"
  const PermissionEdit := "edit"
  const PermissionAdmin := "admin"

  /** GetMember of the team repository. */
  type Members = map<(string, string), TeamMember>

  /** The methods served without authorization, in the order the interceptor lists them. */
  const SkipAuthorizationMethods: seq<string> := [
    "/todo.v1.AuthService/Register", "/todo.v1.AuthService/Login", "/todo.v1.AuthService/Logout",
    "/todo.v1.AuthService/RefreshToken", "/todo.v1.SystemService/HealthCheck", "/todo.v1.TODOService/GetProfile"]

  /** shouldSkipAuthorization: true for exactly the six listed methods. */
  function ShouldSkipAuthorization(fullMethod: string): (b: bool)
    ensures b <==> fullMethod in {"/todo.v1.AuthService/Register", "/todo.v1.AuthService/Login",
                                  "/todo.v1.AuthService/Logout", "/todo.v1.AuthService/RefreshToken",
                                  "/todo.v1.SystemService/HealthCheck", "/todo.v1.TODOService/GetProfile"}
  {
    Text.ListContains(SkipAuthorizationMethods, fullMethod)
  }

  /** The permission table of getRequiredPermission. */
  const MethodPermissions: map<string, string> := map[
    "/todo.v1.TODOService/CreateTODO" := PermissionEdit,
    "/todo.v1.TODOService/GetTODO" := PermissionView,
    "/todo.v1.TODOService/UpdateTODO" := PermissionEdit,
    "/todo.v1.TODOService/DeleteTODO" := PermissionEdit,
    "/todo.v1.TODOService/ListTODOs" := PermissionView,
    "/todo.v1.TeamService/CreateTeam" := PermissionAdmin,
    "/todo.v1.TeamService/GetTeam" := PermissionView,
    "/todo.v1.TeamService/UpdateTeam" := PermissionAdmin,
    "/todo.v1.TeamService/DeleteTeam" := PermissionAdmin,
    "/todo.v1.TeamService/ListTeams" := PermissionView,
    "/todo.v1.TeamService/AddTeamMember" := PermissionAdmin,
    "/todo.v1.TeamService/RemoveTeamMember" := PermissionAdmin,
    "/todo.v1.MediaService/UploadMedia" := PermissionEdit,
    "/todo.v1.MediaService/GetMedia" := PermissionView,
    "/todo.v1.MediaService/DeleteMedia" := PermissionEdit,
    "/todo.v1.RealtimeService/Subscribe" := PermissionView,
    "/todo.v1.RealtimeService/PublishEvent" := PermissionEdit]

  /** getRequiredPermission: the table entry, or "" (a Go map's zero value) for a method not listed.
      Every entry is one of the three permissions, and only team methods require admin. */
  function RequiredPermission(fullMethod: string): (r: string)
    ensures fullMethod in MethodPermissions ==> r == MethodPermissions[fullMethod]
    ensures fullMethod !in MethodPermissions ==> r == ""
    ensures r in {"", PermissionView, PermissionEdit, PermissionAdmin}
    ensures r == PermissionAdmin ==> Text.HasPrefix(fullMethod, "/todo.v1.TeamService/")
  {
    if fullMethod in MethodPermissions then MethodPermissions[fullMethod] else ""
  }

  /** The role table of hasPermission. */
  const RolePermissions: map<Role, seq<string>> := map[
    RoleMember := [PermissionView, PermissionEdit],
    RoleAdmin := [PermissionView, PermissionEdit, PermissionAdmin],
    RoleOwner := [PermissionView, PermissionEdit, PermissionAdmin]]

  /** hasPermission: MEMBER may view and edit; ADMIN and OWNER may also administer; any other
      role may do nothing. */
  function HasPermission(role: Role, requiredPermission: string): (b: bool)
    ensures b <==> (role == RoleMember && requiredPermission in {PermissionView, PermissionEdit})
                   || ((role == RoleAdmin || role == RoleOwner)
                       && requiredPermission in {PermissionView, PermissionEdit, PermissionAdmin})
  {
    role in RolePermissions && Text.ListContains(RolePermissions[role], requiredPermission)
  }

  /** Permissions are nested: admin implies edit, and edit implies view. */
  lemma PermissionsNested(role: Role)
    ensures HasPermission(role, PermissionAdmin) ==> HasPermission(role, PermissionEdit)
    ensures HasPermission(role, PermissionEdit) ==> HasPermission(role, PermissionView)
  {
  }

  /** The least team role that grants a permission. */
  function LeastRoleFor(permission: string): Role {
    if permission == PermissionAdmin then RoleAdmin else RoleMember
  }

  /** The permission table agrees with the role hierarchy of TeamMember.HasPermission: for each of
      the three permissions, a role grants it exactly when it ranks at least as high as the least
      role granting it. */
  lemma PermissionFollowsRank(m: TeamMember, permission: string)
    requires permission in {PermissionView, PermissionEdit, PermissionAdmin}
    ensures HasPermission(m.role, permission) <==> DomainTeam.HasPermission(m, LeastRoleFor(permission))
  {
  }

  /** What reflection finds in a request: whether it is a struct (or a pointer to one), which of the
      string fields Id, TodoId and TeamId it has, and whether it is one of the three request types
      the type switch names. */
  datatype RequestKind = GetTodoRequest | UpdateTodoRequest | DeleteTodoRequest | OtherRequest
  datatype Request = Request(isStruct: bool, kind: RequestKind,
                             id: Option<string>, todoId: Option<string>, teamId: Option<string>)

  /** extractResourceInfo: a TODO service method takes its resource id from Id, overridden by
      TodoId; a team service method takes its team id from Id, overridden by TeamId; a Get, Update or
      Delete TODO request takes its resource id from Id; a non-struct request yields neither. */
  function ExtractResourceInfo(req: Request, fullMethod: string): (r: (string, string))
    ensures !req.isStruct ==> r == ("", "")
    // the team id is set only for team service methods
    ensures r.1 != "" ==> Text.Contains(fullMethod, "TeamService")
    ensures req.isStruct && Text.Contains(fullMethod, "TeamService") ==>
              r.1 == (if req.teamId.Some? then req.teamId.value else if req.id.Some? then req.id.value else "")
    ensures req.isStruct && req.kind == OtherRequest && Text.Contains(fullMethod, "TODOService") ==>
              r.0 == (if req.todoId.Some? then req.todoId.value else if req.id.Some? then req.id.value else "")
    ensures req.isStruct && req.kind != OtherRequest ==> r.0 == Get(req.id, "")
    ensures req.isStruct && req.kind == OtherRequest && !Text.Contains(fullMethod, "TODOService") ==> r.0 == ""
  {
    if !req.isStruct then ("", "")
    else
      var fromTodoService :=
        if Text.Contains(fullMethod, "TODOService") then
          if req.todoId.Some? then req.todoId.value else if req.id.Some? then req.id.value else ""
        else "";
      var teamId :=
        if Text.Contains(fullMethod, "TeamService") then
          if req.teamId.Some? then req.teamId.value else if req.id.Some? then req.id.value else ""
        else "";
      var resourceId := if req.kind != OtherRequest then Get(req.id, "") else fromTodoService;
      (resourceId, teamId)
  }

  function Get(o: Option<string>, default: string): string {
    if o.Some? then o.value else default
  }

  /** checkAuthorization: with neither a resource nor a team everything is allowed; with a team the
      caller must be a member whose role grants the permission (PermissionDenied otherwise); with
      only a TODO resource it is allowed, ownership being left to the services. */
  function CheckAuthorization(userId: string, resourceId: string, teamId: string, requiredPermission: string,
                              members: Members): (r: Outcome)
    ensures resourceId == "" && teamId == "" ==> r == Pass
    ensures teamId != "" ==>
              (r == Pass <==> (teamId, userId) in members && HasPermission(members[(teamId, userId)].role, requiredPermission))
    ensures teamId == "" && resourceId != "" ==> r == Pass
    ensures r != Pass ==> r == Fail(PermissionDenied)
  {
    if resourceId == "" && teamId == "" then Pass
    else if teamId != "" then
      if (teamId, userId) !in members then Fail(PermissionDenied)
      else if !HasPermission(members[(teamId, userId)].role, requiredPermission) then Fail(PermissionDenied)
      else Pass
    else Pass
  }

  /** AuthorizationInterceptor; Pass means the handler runs. The checks come in this order: the
      public-method list, then an authenticated user id, then a method without a required
      permission, then the resource check. */
  function AuthorizationInterceptor(fullMethod: string, ctx: AuthMiddleware.Context, req: Request,
                                    members: Members): (r: Outcome)
    ensures ShouldSkipAuthorization(fullMethod) ==> r == Pass
    ensures !ShouldSkipAuthorization(fullMethod) && AuthMiddleware.GetUserIdFromContext(ctx).Err? ==>
              r == Fail(Unauthenticated)
    ensures !ShouldSkipAuthorization(fullMethod) && AuthMiddleware.GetUserIdFromContext(ctx).Ok? ==>
              var userId := AuthMiddleware.GetUserIdFromContext(ctx).value;
              var info := ExtractResourceInfo(req, fullMethod);
              r == if RequiredPermission(fullMethod) == "" then Pass
                   else CheckAuthorization(userId, info.0, info.1, RequiredPermission(fullMethod), members)
  {
    if ShouldSkipAuthorization(fullMethod) then Pass
    else
      var userId := AuthMiddleware.GetUserIdFromContext(ctx);
      if userId.Err? then Fail(userId.code)
      else
        var requiredPermission := RequiredPermission(fullMethod);
        if requiredPermission == "" then Pass
        else
          var info := ExtractResourceInfo(req, fullMethod);
          CheckAuthorization(userId.value, info.0, info.1, requiredPermission, members)
  }

  /** A denial names either a missing user or a failed permission check. */
  lemma InterceptorDenials(fullMethod: string, ctx: AuthMiddleware.Context, req: Request, members: Members)
    ensures AuthorizationInterceptor(fullMethod, ctx, req, members) in {Pass, Fail(Unauthenticated), Fail(PermissionDenied)}
  {
  }

  /** A team service method is not public. */
  lemma TeamMethodsNotSkipped(fm: string)
    requires Text.HasPrefix(fm, "/todo.v1.TeamService/")
    ensures !ShouldSkipAuthorization(fm)
  {
    var prefix := "/todo.v1.TeamService/";
    assert fm[10] == prefix[10] == 'e';
    forall m | m in SkipAuthorizationMethods
      ensures fm != m
    {
      assert m[10] != 'e';
    }
  }

  /** A team service method names its service. */
  lemma TeamMethodsMentionTeamService(fm: string)
    requires Text.HasPrefix(fm, "/todo.v1.TeamService/")
    ensures Text.Contains(fm, "TeamService")
  {
    var prefix := "/todo.v1.TeamService/";
    assert fm[9..20] == prefix[9..20] == "TeamService";
    assert Text.OccursAt(fm, "TeamService", 9);
    Text.ContainsIffOccurs(fm, "TeamService");
  }

  /** On a method that requires admin, a request naming a team passes exactly when the caller is
      an ADMIN or OWNER of that team: a plain MEMBER is denied. */
  lemma AdminMethodsNeedAdminRole(fm: string, ctx: AuthMiddleware.Context, req: Request, members: Members)
    requires RequiredPermission(fm) == PermissionAdmin
    requires AuthMiddleware.GetUserIdFromContext(ctx).Ok? && req.isStruct && req.teamId.Some? && req.teamId.value != ""
    ensures var key := (req.teamId.value, AuthMiddleware.GetUserIdFromContext(ctx).value);
            AuthorizationInterceptor(fm, ctx, req, members) == Pass <==> key in members && members[key].role in {RoleAdmin, RoleOwner}
  {
    TeamMethodsNotSkipped(fm);
    TeamMethodsMentionTeamService(fm);
  }

  /** The middleware's IsAdmin: the caller is a member of the team with role ADMIN or OWNER; an
      unauthenticated caller or a non-member is not. */
  function IsAdmin(ctx: AuthMiddleware.Context, teamId: string, members: Members): (b: bool)
    ensures b <==> AuthMiddleware.GetUserIdFromContext(ctx).Ok?
                   && (teamId, AuthMiddleware.GetUserIdFromContext(ctx).value) in members
                   && members[(teamId, AuthMiddleware.GetUserIdFromContext(ctx).value)].role in {RoleAdmin, RoleOwner}
    ensures b ==> HasPermission(members[(teamId, AuthMiddleware.GetUserIdFromContext(ctx).value)].role, PermissionAdmin)
  {
    var userId := AuthMiddleware.GetUserIdFromContext(ctx);
    userId.Ok? && (teamId, userId.value) in members
    && (members[(teamId, userId.value)].role == RoleAdmin || members[(teamId, userId.value)].role == RoleOwner)
  }

  /** The middleware's IsOwner: the caller is a member of the team with role OWNER. */
  function IsOwner(ctx: AuthMiddleware.Context, teamId: string, members: Members): (b: bool)
    ensures b <==> AuthMiddleware.GetUserIdFromContext(ctx).Ok?
                   && (teamId, AuthMiddleware.GetUserIdFromContext(ctx).value) in members
                   && members[(teamId, AuthMiddleware.GetUserIdFromContext(ctx).value)].role == RoleOwner
    ensures b ==> IsAdmin(ctx, teamId, members)
  {
    var userId := AuthMiddleware.GetUserIdFromContext(ctx);
    userId.Ok? && (teamId, userId.value) in members && members[(teamId, userId.value)].role == RoleOwner
  }

  /** Logout needs authentication but no authorization: the two public-method lists differ. */
  lemma PublicMethodListsDiffer()
    ensures ShouldSkipAuthorization("/todo.v1.AuthService/Logout")
    ensures !AuthMiddleware.ShouldSkipAuth("/todo.v1.AuthService/Logout")
    ensures forall m :: AuthMiddleware.ShouldSkipAuth(m) ==> ShouldSkipAuthorization(m)
  {
  }
}
