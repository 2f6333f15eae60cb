# todo-api core in Dafny

This project models the service core of the todo-api backend, a gRPC/HTTP service for TODO items
shared within teams. It covers:

- the **websocket broadcast hub**: registered clients, routing of each message to the clients it
  concerns, bounded client queues, and the ping/subscribe/unsubscribe control messages;
- the **TODO lifecycle**: creation, completion, reopening and partial update, together with the
  invariant that a completion time is recorded exactly when the status is COMPLETED;
- the **services** over repositories that are maps: TODO, team, authentication, media and
  permission services, each with its validation order, its error codes, and what it stores or
  leaves untouched;
- the **authorization tables**: public-method lists, method→permission and role→permission
  tables, and the role hierarchy OWNER > ADMIN > MEMBER;
- **query and pagination arithmetic**: page and size clamps, page counts, `$n` placeholder
  numbering in the PostgreSQL `List` query, whitelisting of sort fields, and the shared-ID
  intersection;
- the **in-memory repository** used by the service tests: conjunctive filter, ASCII
  case-insensitive search, exchange sort, and slice pagination;
- **small parsers**: bearer tokens, the advanced-search query parameters, `parseInt32`, MIME
  classification, upload validation, and the S3 URL↔key round trip.

There is one Dafny module per source file:

| module | file |
|---|---|
| `WebSocketService` | `hub.dfy` |
| `DomainTodo` | `domain_todo.dfy` |
| `DomainTeam` | `domain_team.dfy` |
| `DomainUser` | `domain_user.dfy` |
| `DomainMedia` | `domain_media.dfy` |
| `TodoService` | `todo_service.dfy` |
| `MockTodoRepository` | `mock_repo.dfy` |
| `PostgresRepository` | `postgres.dfy` |
| `Authorization` | `authorization.dfy` |
| `AuthMiddleware` | `auth_middleware.dfy` |
| `PermissionService` | `permission_service.dfy` |
| `TeamService` | `team_service.dfy` |
| `AuthService` | `auth_service.dfy` |
| `MediaService` | `media_service.dfy` |
| `S3Storage` | `s3_storage.dfy` |
| `TodoHandler` | `todo_handler.dfy` |
| `WebSocketHandler` | `websocket_handler.dfy` |

`Wrappers` holds the gRPC codes and the `Result`/`Outcome`/`Option` types. `Text` holds the Go
string functions the core calls.

Objects that the source changes in place are classes:

- `Todo`, `User`, the websocket `Client` and `Hub`;
- the repositories, each holding a `map`.

Records that are only copied are datatypes: `Team`, `TeamMember`, `Media`, the filters and the
messages.

Some things are parameters of the model:

- **Clock and fresh ids**: each clock reading (`now`, `nanos`, and `completedNow` for the
  second reading inside a TODO update) and each fresh UUID (`newId`).
- **Token and password functions**: bcrypt hashing and comparison, JWT issue and validation, and
  RFC 3339 parsing are function-typed parameters.
- **Injected failures**: a failure of a repository write or of an S3 call is a `bool` parameter
  (`saveFails`, `ownerInsertFails`, `insertFails`, `uploaded`, `updateFails`, `cleanupFails`,
  `storageDeleteFails`, `recordDeleteFails`, `upgradeFails`, `fails`). A violated key or foreign
  key the model can see (a taken id, email or username, an absent team) fails on its own.
- **Enumerations**: the protobuf enumerations (status, priority, role, media type) are integers
  with distinct values.

## Model

| member | source | states |
|---|---|---|
| WebSocketService.ShouldSendToClient | internal/app/service/websocket_service.go:89-112 | An empty message user id reaches every client. A matching user id reaches that client. Otherwise the client is reached iff the payload is a map whose string `team_id` is one of the client's team ids. |
| WebSocketService.PayloadTeamId | internal/app/service/websocket_service.go:101-102 | A team id is found iff the payload is a map with a string `team_id`, and it is that string. |
| WebSocketService.TodoUpdateEvent | internal/app/service/websocket_service.go:115-132 | The message has type `todo_update`, an empty user id, and the action, the todo and its id. It has a `team_id` key exactly when the todo's team id is set and non-empty. |
| WebSocketService.TeamUpdateEvent | internal/app/service/websocket_service.go:135-147 | The message has type `team_update`, an empty user id, and the action, the team and the team's id as `team_id`. |
| WebSocketService.UserNotificationEvent | internal/app/service/websocket_service.go:150-162 | The message has type `notification` and is addressed to the target user. Its payload is the type and content, with no `team_id`. |
| WebSocketService.TodoUpdateReachesEveryone | internal/app/service/websocket_service.go:91-93 | A TODO update reaches every client, whatever team id it carries. |
| WebSocketService.TeamUpdateReachesEveryone | internal/app/service/websocket_service.go:91-93 | A team update reaches every client. |
| WebSocketService.NotificationReachesOnlyTarget | internal/app/service/websocket_service.go:95-111 | A notification for a non-empty user reaches a client iff the client is that user. |
| WebSocketService.TeamRoutingByMembership | internal/app/service/websocket_service.go:101-111 | A message for another user with a team id reaches a client iff the client lists that team. |
| WebSocketService.FirstIndex | internal/app/service/websocket_service.go:298-305 | The position of the first occurrence, or the length when there is none. Nothing before it is equal. |
| WebSocketService.FindTeam | internal/app/service/websocket_service.go:298-305 | The search loop of unsubscribe returns the first index of the team id. |
| WebSocketService.RemoveFirstMultiset | internal/app/service/websocket_service.go:298-305 | Unsubscribe removes exactly one occurrence when there is one, and changes nothing otherwise. |
| WebSocketService.RemoveFirstKeepsOrder | internal/app/service/websocket_service.go:298-305 | The ids before and after the removed one keep their order. |
| WebSocketService.Client.constructor | internal/app/service/websocket_service.go:173-186 | A new client has its user and team ids, an empty queue, and is open. |
| WebSocketService.Client.Receive | internal/app/service/websocket_service.go:203-210 | The writer takes the oldest queued message. An empty queue reports whether it is closed. |
| WebSocketService.Client.HandleIncoming | internal/app/service/websocket_service.go:271-311 | `ping` queues one `pong` on the sender's own queue when there is room. `subscribe` appends the team id, duplicates allowed. `unsubscribe` removes its first occurrence. Every other message changes nothing. |
| WebSocketService.Hub.constructor | internal/app/service/websocket_service.go:42-49 | A new hub has no clients. |
| WebSocketService.Hub.Register | internal/app/service/websocket_service.go:55-59 | Register adds exactly that client. |
| WebSocketService.Hub.Connect | internal/app/service/websocket_service.go:173-193 | A fresh open client with the given user and team ids is registered. |
| WebSocketService.Hub.Unregister | internal/app/service/websocket_service.go:61-68 | A registered client is removed and closed, once. An absent client changes nothing. |
| WebSocketService.Hub.Broadcast | internal/app/service/websocket_service.go:70-83 | Every routed client with room gets the message at the tail of its queue. A routed client with a full queue (256) is closed and removed. Clients not routed to are untouched. |
| DomainTodo.NewTodoView | internal/domain/todo.go:47-60 | A new TODO is NOT_STARTED with priority MEDIUM, not shared, position 0, `CreatedAt == UpdatedAt`, and no completion time. |
| DomainTodo.CompletedView | internal/domain/todo.go:68-73 | Complete sets COMPLETED, with completion and update time both now. Nothing else changes. |
| DomainTodo.ReopenedView | internal/domain/todo.go:76-80 | Reopen sets NOT_STARTED, clears the completion time and refreshes the update time. Nothing else changes. |
| DomainTodo.UpdateFieldEffects | internal/domain/todo.go:83-118 | Update overwrites each field whose argument is present, keeps every other field, and always sets the update time. |
| DomainTodo.UpdateCompletionRules | internal/domain/todo.go:90-98 | Update to COMPLETED keeps an existing completion time or records the first of its two clock readings. Any other status clears it. Without a status the first reading does not matter. |
| DomainTodo.LifecyclePreservesConsistency | internal/domain/todo.go:68-98 | Complete, Reopen and Update each keep "completion time set iff COMPLETED". |
| DomainTodo.StatusUpdateEstablishesConsistency | internal/domain/todo.go:90-98 | An Update that sets a status establishes the invariant from any state. |
| DomainTodo.RepeatedCompletionKeepsFirstTime | internal/domain/todo_test.go:126-139 | Setting COMPLETED twice keeps the first completion time. |
| DomainTodo.Todo.constructor | internal/domain/todo.go:47-60 | The object holds exactly what NewTODO builds. |
| DomainTodo.Todo.IsCompleted | internal/domain/todo.go:63-65 | True iff the status is COMPLETED. Under the invariant, true iff a completion time is set. |
| DomainTodo.Todo.Complete | internal/domain/todo.go:68-73 | The fields become `CompletedView` of the old fields. |
| DomainTodo.Todo.Reopen | internal/domain/todo.go:76-80 | The fields become `ReopenedView` of the old fields. |
| DomainTodo.Todo.Update | internal/domain/todo.go:83-118 | The fields become `UpdatedView` of the old fields, with the completion time and the update time taken from two separate clock readings, as the two `time.Now()` calls do. |
| DomainTodo.Todo.SetStatus | internal/app/service/todo_service_test.go:430-437 | The in-memory bulk update assigns the status alone. |
| DomainTeam.NewTeam | internal/domain/team.go:29-39 | The arguments are copied and `CreatedAt == UpdatedAt`. |
| DomainTeam.RoleRank | internal/domain/team.go:42-48 | OWNER, ADMIN and MEMBER rank 3, 2 and 1. Every other role ranks 0. |
| DomainTeam.HasPermission | internal/domain/team.go:42-50 | Holds iff the member's rank is at least the required rank. It is reflexive. OWNER satisfies everything. MEMBER does not satisfy ADMIN or OWNER. A rank-0 requirement is satisfied by everyone. |
| DomainTeam.HasPermissionTransitive | internal/domain/team.go:42-50 | Satisfying a role satisfies every role that role satisfies. |
| DomainUser.NewUserView | internal/domain/user.go:24-35 | The email, username and hash are copied. The account is active, `CreatedAt == UpdatedAt`, and there is no last login. |
| DomainUser.User.constructor | internal/domain/user.go:24-35 | The object holds exactly what NewUser builds. |
| DomainUser.User.UpdateLastLogin | internal/domain/user.go:38-42 | LastLoginAt and UpdatedAt become the same instant. No other field changes. |
| DomainUser.User.SetFullName | internal/app/service/auth_service.go:81-83 | Only the full name changes. |
| AuthMiddleware.ShouldSkipAuth | internal/pkg/middleware/auth.go:110-122 | Exactly Register, Login and HealthCheck are public. |
| AuthMiddleware.BearerToken | internal/pkg/middleware/auth.go:48-65 | Missing metadata, a missing header or a missing "Bearer " prefix is Unauthenticated. Otherwise the prefix followed by the token is the first header value. |
| AuthMiddleware.BearerTokenRoundTrip | internal/pkg/middleware/auth.go:60-65 | The header "Bearer " + t yields t. |
| AuthMiddleware.AuthInterceptor | internal/pkg/middleware/auth.go:35-80 | A public method runs with the context unchanged. Any other method needs a token that validates, else Unauthenticated. It then runs with the claims' user id, username and email added. |
| AuthMiddleware.GetUserIdFromContext | internal/pkg/middleware/auth.go:83-89 | Fails with Unauthenticated iff the value is absent, not a string, or empty. |
| AuthMiddleware.GetUsernameFromContext | internal/pkg/middleware/auth.go:92-98 | The string value, or "" when absent or not a string. |
| AuthMiddleware.GetEmailFromContext | internal/pkg/middleware/auth.go:101-107 | The string value, or "" when absent or not a string. |
| AuthMiddleware.AuthenticatedHandlerSeesUser | internal/pkg/middleware/auth.go:74-79 | After the interceptor accepts a call, the handler reads the claims' user id, username and email. |
| AuthMiddleware.LogoutNeedsToken | internal/pkg/middleware/auth.go:110-122 | Logout without metadata is Unauthenticated. |
| Authorization.ShouldSkipAuthorization | internal/pkg/middleware/authorization.go:69-84 | True for exactly the six listed methods. |
| Authorization.RequiredPermission | internal/pkg/middleware/authorization.go:87-116 | The table entry, or "" for an unlisted method. Only team service methods need admin. |
| Authorization.HasPermission | internal/pkg/middleware/authorization.go:196-215 | MEMBER has view and edit. ADMIN and OWNER also have admin. Every other role has nothing. |
| Authorization.PermissionsNested | internal/pkg/middleware/authorization.go:196-215 | Admin implies edit, and edit implies view. |
| Authorization.PermissionFollowsRank | internal/pkg/middleware/authorization.go:196-215 | The permission table agrees with the role ranks of `TeamMember.HasPermission`. |
| Authorization.ExtractResourceInfo | internal/pkg/middleware/authorization.go:119-161 | A non-struct request names nothing. A team id comes only from team service methods. A TodoId or TeamId field overrides `Id`. |
| Authorization.CheckAuthorization | internal/pkg/middleware/authorization.go:164-193 | With neither a resource nor a team, allowed. With a team, allowed iff the caller is a member whose role grants the permission, PermissionDenied otherwise. With only a resource, allowed. |
| Authorization.AuthorizationInterceptor | internal/pkg/middleware/authorization.go:31-66 | The checks run in order: skip list, user id (Unauthenticated), empty required permission (allowed), then CheckAuthorization. |
| Authorization.InterceptorDenials | internal/pkg/middleware/authorization.go:31-66 | The only verdicts are pass, Unauthenticated and PermissionDenied. |
| Authorization.TeamMethodsNotSkipped | internal/pkg/middleware/authorization.go:69-84 | No team service method is on the skip list. |
| Authorization.TeamMethodsMentionTeamService | internal/pkg/middleware/authorization.go:130-148 | Every team service method name contains "TeamService", so its team id is extracted. |
| Authorization.AdminMethodsNeedAdminRole | internal/pkg/middleware/authorization.go:87-116 | On an admin method naming a team, an authenticated call passes iff the caller is an ADMIN or OWNER member. |
| Authorization.IsAdmin | internal/pkg/middleware/authorization.go:218-230 | True iff there is a user, the user is a member, and the role is ADMIN or OWNER. |
| Authorization.IsOwner | internal/pkg/middleware/authorization.go:233-245 | True iff there is a user, the user is a member, and the role is OWNER. An owner is an admin. |
| Authorization.PublicMethodListsDiffer | internal/pkg/middleware/authorization.go:69-84 | Logout skips authorization but not authentication. Every method public to authentication is public to authorization. |
| PermissionService.HasTeamPermission | internal/app/service/permission_service.go:133-152 | Only known roles and the three known permissions can be granted. |
| PermissionService.HasTeamPermissionAgrees | internal/app/service/permission_service.go:133-152 | The service's table and the middleware's table agree on every role and permission. |
| PermissionService.AnyTeamGrants | internal/app/service/permission_service.go:51-64 | True iff some shared team has the user as a member whose role grants the permission. |
| PermissionService.CheckTodoPermission | internal/app/service/permission_service.go:28-65 | The checks run in order: an empty id (InvalidArgument), a missing TODO (NotFound), the owner (allowed for any permission), teams unreadable (Internal). Then allowed iff a shared team grants the permission, PermissionDenied otherwise. |
| PermissionService.CheckTeamPermission | internal/app/service/permission_service.go:68-85 | An empty id is InvalidArgument. Otherwise allowed iff the user is a member whose role grants the permission, PermissionDenied otherwise. |
| PermissionService.TeamCheckAgreesWithInterceptor | internal/app/service/permission_service.go:68-85 | With both ids present, the service and the interceptor reach the same verdict. |
| PermissionService.CanChecksNested | internal/app/service/permission_service.go:88-110 | Who may edit may view. Delete is exactly edit. Who may manage a team may create TODOs in it. |
| PermissionService.NonMemberTeamIrrelevant | internal/app/service/permission_service.go:51-64 | Sharing with a team the user does not belong to changes no verdict. |
| PermissionService.IsTeamOwner | internal/app/service/permission_service.go:113-120 | An error for a non-member. Otherwise true iff the role is OWNER. |
| PermissionService.IsTeamAdmin | internal/app/service/permission_service.go:123-130 | An error for a non-member. Otherwise true iff the role is ADMIN or OWNER. |
| PermissionService.OwnerIsAdminIsManager | internal/app/service/permission_service.go:108-130 | An owner is an admin. Being an admin is exactly passing CanManageTeam. |
| TeamService.UpdatedTeamEffects | internal/app/service/team_service.go:89-94 | An empty name or description keeps the stored one. Nothing else changes. |
| TeamService.CreatorManagesTeam | internal/app/service/team_service.go:43-48 | The creator's OWNER membership passes CanManageTeam and IsTeamOwner, and satisfies every role. |
| TeamService.TeamRepository.Create | internal/infrastructure/database/team_repo.go:23-39 | Inserts a new id. A taken id is an error and changes nothing. |
| TeamService.TeamRepository.GetById | internal/infrastructure/database/team_repo.go:42-67 | The stored team, or an error. |
| TeamService.TeamRepository.Update | internal/infrastructure/database/team_repo.go:70-98 | Writes name, description and update time. A missing row or a failed statement is an error and changes nothing. |
| TeamService.TeamRepository.Delete | internal/infrastructure/database/team_repo.go:101-119 | Removes a stored team; a missing row or a failed statement is an error and changes nothing. The cascade removes exactly the team's memberships and shares (`CascadedFrom`), keeping every membership and share names a stored team. |
| TeamService.DeletedTeamGrantsNothing | internal/infrastructure/database/postgres.go:784-800 | After the cascade nobody holds any permission in the deleted team, and every other team's permission checks are unchanged. |
| TeamService.TeamRepository.AddMember | internal/infrastructure/database/team_repo.go:158-173 | An absent team (the foreign key) or a failed statement is an error and changes nothing. Otherwise the membership is inserted, and an existing pair has only its role overwritten. |
| TeamService.TeamRepository.GetMember | internal/infrastructure/database/team_repo.go:184-211 | The membership, or an error. |
| TeamService.TeamRepository.RemoveMember | internal/infrastructure/database/team_repo.go:176-181 | A failed statement is an error and changes nothing. Otherwise the pair is absent afterwards, and an absent pair is no error. |
| TeamService.TeamRepository.UpdateMemberRole | internal/infrastructure/database/team_repo.go:249-267 | Changes only the role. A missing row or a failed statement is an error and changes nothing. |
| TeamService.TeamRepository.ShareTodo | internal/infrastructure/database/team_repo.go:270-279 | An absent team (the foreign key) or a failed statement (an absent TODO or sharer among its causes) is an error and changes nothing. Otherwise records, or overwrites, who shared the TODO with the team. |
| TeamService.TeamRepository.UnshareTodo | internal/infrastructure/database/team_repo.go:282-287 | A failed statement is an error and changes nothing. Otherwise the share is absent afterwards. |
| TeamService.Service.CreateTeam | internal/app/service/team_service.go:28-62 | An empty name, then an empty creator, is InvalidArgument. On success the team is stored and the creator is an OWNER who joined at creation time. A failed owner insert deletes the team again; only when that delete fails too does the team stay. No error changes the memberships. |
| TeamService.Service.GetTeam | internal/app/service/team_service.go:65-76 | An empty id is InvalidArgument, a missing team NotFound. Otherwise the stored team. |
| TeamService.Service.UpdateTeam | internal/app/service/team_service.go:79-106 | Errors as for GetTeam, then a failed write is Internal; none changes anything. On success the stored team takes the non-empty arguments. |
| TeamService.Service.DeleteTeam | internal/app/service/team_service.go:109-130 | Errors as for GetTeam, then a failed delete is Internal; none changes anything. On success the team is gone together with its memberships and shares, and the event carries the team as fetched. |
| TeamService.Service.GetTeamMember | internal/app/service/team_service.go:133-147 | An empty id is InvalidArgument and a non-member NotFound. Otherwise the membership. |
| TeamService.Service.AddTeamMember | internal/app/service/team_service.go:164-196 | The checks run in order: empty ids, missing team (NotFound), existing member (AlreadyExists), failed insert (Internal); none changes anything. Then the member is added with the team's creation time. |
| TeamService.Service.RemoveTeamMember | internal/app/service/team_service.go:199-218 | A missing member is NotFound and a failed delete Internal; neither changes anything. Otherwise the member is removed. |
| TeamService.Service.UpdateMemberRole | internal/app/service/team_service.go:221-240 | A missing member is NotFound and a failed write Internal; neither changes anything. Otherwise only the role changes. |
| TeamService.Service.ShareTodo | internal/app/service/team_service.go:257-273 | The TODO id, team id and sharer are each checked for emptiness (InvalidArgument). A rejected insert, an absent team included, is Internal and changes nothing. Otherwise the share is recorded. |
| TeamService.Service.UnshareTodo | internal/app/service/team_service.go:276-289 | The TODO id and team id are each checked for emptiness. A failed delete is Internal and changes nothing. Otherwise the share is removed. |
| AuthService.UserRepository.constructor | internal/infrastructure/database/user_repo.go:17-19 | Empty store, with unique emails and usernames. |
| AuthService.UserRepository.ExistsByEmail | internal/infrastructure/database/user_repo.go:211-216 | True iff some account has the email. |
| AuthService.UserRepository.ExistsByUsername | internal/infrastructure/database/user_repo.go:219-224 | True iff some account has the username. |
| AuthService.UserRepository.GetByEmail | internal/infrastructure/database/user_repo.go:91-127 | The stored account with that email, or NotFound. |
| AuthService.UserRepository.GetById | internal/infrastructure/database/user_repo.go:52-88 | The stored account, or NotFound. |
| AuthService.UserRepository.Create | internal/infrastructure/database/user_repo.go:22-49 | Fails, changing nothing, exactly when the id, email or username is taken (the table's keys) or the statement fails. Otherwise stores the account under its id, keeping emails and usernames unique. |
| AuthService.UserRepository.Update | internal/infrastructure/database/user_repo.go:169-208 | Rewrites the account unless the write fails. |
| AuthService.RegisteredView | internal/app/service/auth_service.go:76-84 | The stored account is NewUser's, with the full name given. |
| AuthService.Service.Register | internal/app/service/auth_service.go:43-90 | An empty email, username or password, in that order, is InvalidArgument. A taken email, checked before the username, or a taken username is AlreadyExists. A hashing failure or a failed insert is Internal. Otherwise an active account is stored. No error stores anything. |
| AuthService.Service.Login | internal/app/service/auth_service.go:93-124 | An unknown email or a wrong password is Unauthenticated. An inactive account is PermissionDenied, checked after the password. On success the login time is recorded even when the write fails, and the token comes from the generator. |
| AuthService.Service.ValidateToken | internal/app/service/auth_service.go:127-143 | The answer is `TokenCheck`: a rejected token or a missing user is Unauthenticated, an inactive user PermissionDenied, otherwise the claims. |
| AuthService.Service.TokenCheck | internal/app/service/auth_service.go:127-143 | Claims exactly for a token the validator accepts whose user is stored and active; every other answer is Unauthenticated or PermissionDenied. |
| AuthService.Service.GetUserById | internal/app/service/auth_service.go:146-157 | An empty id is InvalidArgument, a missing user NotFound. Otherwise the account. |
| MediaService.DetermineMediaType | internal/app/service/media_service.go:171-180 | IMAGE iff one of the four image types. VIDEO iff one of the three video types. Otherwise UNSPECIFIED. |
| MediaService.AllowedTypesAreClassified | internal/pkg/storage/s3_storage.go:88-101 | The upload whitelist is exactly the types classified as IMAGE or VIDEO. |
| MediaService.ListMediaWindow | internal/app/service/media_service.go:111-134 | An empty TODO id is InvalidArgument. The limit is the page size when in 1..100, else 50. The offset is token × limit and fits in 64 bits. |
| MediaService.ConsecutiveWindowsAdjacent | internal/app/service/media_service.go:116-121 | Consecutive page tokens give adjacent windows that do not overlap. |
| MediaService.Storage.UploadFile | internal/pkg/storage/s3_storage.go:74-126 | The adapter's result. On success the object is stored under the key its URL names. |
| MediaService.Storage.DeleteFile | internal/pkg/storage/s3_storage.go:129-148 | An empty URL is InvalidArgument and a rejected DeleteObject call Internal; neither changes anything. Otherwise the key the URL names is gone. |
| DomainMedia.NewMedia | internal/domain/media.go:26-37 | The given attributes, the fresh id and the upload time; the MIME type and thumbnail are empty and the duration is 0. |
| MediaService.MediaRepository.CreateMedia | internal/infrastructure/database/media_repo.go:23-53 | Inserts the record. A failure or a taken id changes nothing. |
| MediaService.MediaRepository.DeleteMedia | internal/infrastructure/database/media_repo.go:148-166 | An id with no record (no row affected) or a failed statement is an error and changes nothing. Otherwise the record is removed. |
| MediaService.Service.UploadedRecord | internal/app/service/media_service.go:68-81 | The record's MIME type is the header's Content-Type and its file type is `determineMediaType` of it. Name, size, URL, uploader and time come from the upload. |
| MediaService.Service.UploadMedia | internal/app/service/media_service.go:52-94 | A missing file or header is InvalidArgument, then an empty user is Unauthenticated, then a failed upload is Internal. On success the record is stored. If the save fails, the uploaded object is deleted again, unless that deletion fails too, which is ignored. |
| MediaService.Service.GetMedia | internal/app/service/media_service.go:97-108 | An empty id is InvalidArgument, a missing record NotFound. Otherwise the record. |
| MediaService.Service.DeleteMedia | internal/app/service/media_service.go:137-168 | Errors in order: empty id, empty user, missing record, not the uploader (PermissionDenied), then a storage failure (Internal, nothing deleted) and a record failure (Internal, the object already gone). On success both the object and the record are gone. |
| S3Storage.ValidateUpload | internal/pkg/storage/s3_storage.go:74-101 | Passes iff there is a file and a header, the size is at most 10 MiB, and the type is one of the seven allowed. Each failure is InvalidArgument. |
| S3Storage.SizeLimitInclusive | internal/pkg/storage/s3_storage.go:83 | Exactly 10 MiB passes. One byte more fails. |
| S3Storage.Ext | internal/pkg/storage/s3_storage.go:104-106 | A suffix of the name. When non-empty it starts with '.' and holds no other '.' or '/'. When empty, no '.' occurs after the last '/'. |
| S3Storage.UploadFile | internal/pkg/storage/s3_storage.go:74-126 | A validation failure is InvalidArgument and a failed upload Internal. Otherwise the bucket URL of "media/<user>_<nanos><ext>". |
| S3Storage.KeyFromUrl | internal/pkg/storage/s3_storage.go:129-136 | An error iff the URL is empty (InvalidArgument). Otherwise the URL with the bucket prefix removed when present. Download and GetFileInfo use the same recovery. |
| S3Storage.UploadUrlRoundTrip | internal/pkg/storage/s3_storage.go:104-136 | The key recovered from an uploaded file's URL is the key it was stored under. |
| MockTodoRepository.ToLower | internal/app/service/todo_service_test.go:423-428 | Only 'A'..'Z' change, each by +32. |
| MockTodoRepository.EqualsIgnoreCaseIff | internal/app/service/todo_service_test.go:410-421 | Equal under ToLower iff the lengths are equal and every position agrees. |
| MockTodoRepository.ContainsIgnoreCase | internal/app/service/todo_service_test.go:397-407 | False when the text is shorter than the query. |
| MockTodoRepository.ContainsIgnoreCaseIff | internal/app/service/todo_service_test.go:397-407 | True iff some window of the query's length matches it ignoring case. |
| MockTodoRepository.ContainsImpliesContainsIgnoreCase | internal/app/service/todo_service_test.go:397-407 | An exact occurrence is also a case-insensitive one. |
| MockTodoRepository.AnyTagSharedIff | internal/app/service/todo_service_test.go:243-259 | The tag loop succeeds iff some filter tag equals some TODO tag. |
| MockTodoRepository.SearchMatchesIff | internal/app/service/todo_service_test.go:290-324 | The search succeeds iff some listed field matches the query. An empty description never matches. |
| MockTodoRepository.NoFilterMatchesAll | internal/app/service/todo_service_test.go:170-327 | The empty filter admits every TODO. |
| MockTodoRepository.TagCriterion | internal/app/service/todo_service_test.go:243-259 | A tags-only filter admits iff a tag is shared. An empty tag list imposes nothing. |
| MockTodoRepository.SearchCriterion | internal/app/service/todo_service_test.go:290-324 | A search without fields searches title, description and tags. |
| MockTodoRepository.UserCriterionNarrows | internal/app/service/todo_service_test.go:185-188 | Adding a user criterion keeps exactly the matches owned by that user. |
| MockTodoRepository.ExchangeSort | internal/app/service/todo_service_test.go:330-394 | The array ends as a permutation of its contents, ordered by the key and direction. |
| MockTodoRepository.SortTodos | internal/app/service/todo_service_test.go:330-394 | A sorted permutation for a known key, with nil due dates first ascending and last descending. An unknown key gives an unchanged copy. |
| MockTodoRepository.MockPage | internal/app/service/todo_service_test.go:122-166 | A window in range lies within the n filtered items. The int32 arithmetic wraps around, and a window the slice would reject is a panic. |
| MockTodoRepository.MockPageMeaning | internal/app/service/todo_service_test.go:122-166 | Without int32 overflow the page holds elements [(page-1)·size, min(page·size, n)). The page count is ceil(n/size), at least 1 when in range. An out-of-range page is empty with no next page. |
| MockTodoRepository.TenItemsPageSizeThree | internal/app/service/todo_service_test.go:782-796 | Ten items at size 3 make 4 pages, with 3 items on page 2. |
| MockTodoRepository.EmptyOutOfRangeHasZeroPages | internal/app/service/todo_service_test.go:138-155 | An empty repository reports 0 pages on the out-of-range branch. |
| MockTodoRepository.MockRepository.constructor | internal/app/service/todo_service_test.go:67-71 | Empty store. |
| MockTodoRepository.MockRepository.Create | internal/app/service/todo_service_test.go:73-76 | Stores, or overwrites, under the TODO's id. |
| MockTodoRepository.MockRepository.GetById | internal/app/service/todo_service_test.go:78-84 | The stored object, or NotFound. |
| MockTodoRepository.MockRepository.Update | internal/app/service/todo_service_test.go:86-92 | Replaces a present id. A missing id is NotFound and changes nothing. |
| MockTodoRepository.MockRepository.Delete | internal/app/service/todo_service_test.go:94-100 | Removes a present id. A missing id is NotFound. |
| MockTodoRepository.MockRepository.Exists | internal/app/service/todo_service_test.go:446-449 | True iff the id is stored. |
| MockTodoRepository.MockRepository.BulkUpdateStatus | internal/app/service/todo_service_test.go:430-437 | Every listed, present TODO gets the status. Every other TODO is unchanged. |
| MockTodoRepository.MockRepository.BulkDelete | internal/app/service/todo_service_test.go:439-444 | Every listed id is gone. Every other id is kept. |
| MockTodoRepository.MockRepository.FilterTodos | internal/app/service/todo_service_test.go:105-111 | Exactly the stored TODOs that match, each once. |
| MockTodoRepository.MockRepository.List | internal/app/service/todo_service_test.go:102-167 | The ghost `sorted` lists every stored TODO matching the filter once, sorted by the first known sort key, and is as long as the set of matching ids. The result panics exactly when MockPage over that count does; otherwise the page is `sorted[start..end]` with MockPage's pagination, or empty past the end. |
| MockTodoRepository.MockRepository.MatchingCount | internal/app/service/todo_service_test.go:105-111 | A list of exactly the matching TODOs, each once, is as long as the set of matching ids. |
| MockTodoRepository.DistinctIdsCardinality | internal/app/service/todo_service_test.go:105-111 | A list with distinct ids has as many ids as elements. |
| PostgresRepository.Placeholders | internal/infrastructure/database/postgres.go:252-264 | Consecutive `$first`..`$first+count-1`. |
| PostgresRepository.Recognised | internal/infrastructure/database/postgres.go:372-388 | Only title, description and tags survive, in order. |
| PostgresRepository.WhereClause | internal/infrastructure/database/postgres.go:396-399 | Empty iff there are no conditions. Otherwise "WHERE " then the conditions joined by AND. |
| PostgresRepository.PlaceholderBindsValue | internal/infrastructure/database/postgres.go:246-394 | Each placeholder `$k` of a condition is bound to that condition's k-th argument. |
| PostgresRepository.ConsecutiveNumbering | internal/infrastructure/database/postgres.go:246-394 | Each condition's placeholders continue where the previous ones stopped. |
| PostgresRepository.Add | internal/infrastructure/database/postgres.go:267-271 | One condition appended, its arguments appended, `argIndex` advanced by their number. Numbering stays consecutive. |
| PostgresRepository.AddIf | internal/infrastructure/database/postgres.go:267-271 | Add when the criterion is present, otherwise nothing. |
| PostgresRepository.BuildConditions | internal/infrastructure/database/postgres.go:246-394 | The conditions are the filter's criteria in source order, numbered consecutively from $1. The argument count is argIndex-1. |
| PostgresRepository.AddListCriteria | internal/infrastructure/database/postgres.go:252-300 | The IDs, user, statuses and priorities conditions, each only when set. |
| PostgresRepository.AddDueTagAssigneeCriteria | internal/infrastructure/database/postgres.go:303-325 | The due range, tags and assignee conditions, each only when set. |
| PostgresRepository.AddFieldCriteria | internal/infrastructure/database/postgres.go:327-343 | The parent, team and shared conditions, each only when set. |
| PostgresRepository.AddTimeAndSearchCriteria | internal/infrastructure/database/postgres.go:345-394 | The created and completed ranges and the search condition, each only when set. |
| PostgresRepository.NoFilterNoConditions | internal/infrastructure/database/postgres.go:396-399 | The empty filter gives no conditions and no WHERE clause. |
| PostgresRepository.SearchContributesOneArgument | internal/infrastructure/database/postgres.go:369-394 | The search contributes exactly one argument, shared by all recognised fields, and nothing when no field is recognised. |
| PostgresRepository.DefaultSearchFieldsRecognised | internal/infrastructure/database/postgres.go:372-388 | The default search fields are all recognised. |
| PostgresRepository.MapSortField | internal/infrastructure/database/postgres.go:984-1009 | snake_case and camelCase aliases map to their columns. Anything else maps to `created_at`. The result is always whitelisted. |
| PostgresRepository.OrderByClause | internal/infrastructure/database/postgres.go:401-414 | `created_at DESC` without options. Otherwise one whitelisted clause per option, in input order. |
| PostgresRepository.NormalizedPageSize | internal/infrastructure/database/postgres.go:421-427 | Size below 1 becomes 20, above 100 becomes 100, otherwise unchanged. |
| PostgresRepository.TotalPagesMeaning | internal/infrastructure/database/postgres.go:512-516 | The page count is ceil(total/size) and at least 1. |
| PostgresRepository.PaginationMeaning | internal/infrastructure/database/postgres.go:512-525 | HasNext iff page < totalPages, HasPrev iff page > 1, and the page and size are the normalised ones. |
| PostgresRepository.OffsetSkipsEarlierPages | internal/infrastructure/database/postgres.go:416-428 | The offset is (page-1)·size for the clamped page and size, and skips exactly the earlier pages. |
| PostgresRepository.BuildListQuery | internal/infrastructure/database/postgres.go:245-451 | The count and select queries share the WHERE arguments. The select's ORDER BY is the default or one part per sort option, as `OrderByClause` states. LIMIT and OFFSET take `$argIndex` and `$argIndex+1`, bound to the size and offset. |
| PostgresRepository.KeepSharedMembers | internal/infrastructure/database/postgres.go:633-644 | An id is kept iff it was requested and is shared. |
| PostgresRepository.IntersectShared | internal/infrastructure/database/postgres.go:633-644 | The requested ids that are shared, in requested order. The result stays nil when none is kept. |
| PostgresRepository.GetSharedTodos | internal/infrastructure/database/postgres.go:611-648 | No shared ids gives an empty page with one page. Nil requested ids filter by the shared list; otherwise by the intersection. |
| PostgresRepository.DisjointRequestAdmitsUnsharedTodo | internal/infrastructure/database/postgres.go:629-645 | As written, disjoint requested and shared ids drop the ID criterion, so an unshared TODO is admitted. |
| PostgresRepository.GetSharedTodosCorrected | internal/infrastructure/database/postgres.go:611-648 | Every TODO the planned filter admits is shared, and is requested when ids were requested. |
| PostgresRepository.BulkUpdateStatusAsWritten | internal/infrastructure/database/postgres.go:531-570 | Nothing for an empty list. Otherwise the statement with the arguments as the code appends them. |
| PostgresRepository.BulkUpdateStatusArgumentMismatch | internal/infrastructure/database/postgres.go:562-566 | As written there are n+3 arguments for n+2 placeholders, and `updated_at` receives the status. |
| PostgresRepository.BulkUpdateStatusCorrected | internal/infrastructure/database/postgres.go:531-570 | n+2 arguments: the ids, then the status, then the clock. |
| PostgresRepository.BulkDeletePlan | internal/infrastructure/database/postgres.go:573-600 | Nothing for an empty list. Otherwise one DELETE per id, in order, each binding its id to $1. |
| TodoService.CreatedView | internal/app/service/todo_service.go:43-68 | NewTODO with each supplied optional field applied. |
| TodoService.CreatedWithoutOptionsIsNew | internal/app/service/todo_service.go:43-68 | Without optional arguments the stored TODO is exactly NewTODO's. |
| TodoService.CreatedConsistency | internal/app/service/todo_service.go:48-50 | A created TODO keeps the completion invariant iff the supplied status is not COMPLETED. |
| TodoService.ParentCheck | internal/app/service/todo_service.go:112-124 | A nil or empty parent is not checked. Its own id is InvalidArgument. A missing parent is NotFound. |
| TodoService.Service.CreateTodo | internal/app/service/todo_service.go:31-84 | An empty title, then an empty user, is InvalidArgument. A missing parent is NotFound. Errors store nothing. On success the fresh TODO is stored under its id. |
| TodoService.Service.GetTodo | internal/app/service/todo_service.go:87-98 | An empty id is InvalidArgument, a missing TODO NotFound. Otherwise the stored object. |
| TodoService.Service.UpdateTodo | internal/app/service/todo_service.go:101-139 | Empty id, missing TODO, then the parent checks. On success the stored object holds `UpdatedView`. Errors change nothing. |
| TodoService.Service.DeleteTodo | internal/app/service/todo_service.go:142-163 | An empty id is InvalidArgument, a missing TODO NotFound, and neither deletes anything. On success the id is absent. |
| TodoService.Service.ListTodos | internal/app/service/todo_service.go:166-180 | The repository's List with the options assembled from the arguments: the same listing, page, pagination and panic condition. |
| TodoService.Service.BulkUpdateStatus | internal/app/service/todo_service.go:183-193 | An empty list is InvalidArgument and changes nothing. Otherwise the repository's bulk update. |
| TodoService.Service.BulkDelete | internal/app/service/todo_service.go:196-206 | An empty list is InvalidArgument. Otherwise every listed id is gone. |
| TodoService.Service.CompleteTodo | internal/app/service/todo_service.go:209-226 | An empty id is InvalidArgument, a missing TODO NotFound. Otherwise the object holds `CompletedView`. |
| TodoService.Service.ReopenTodo | internal/app/service/todo_service.go:229-250 | Errors as above, and a TODO that is not completed is FailedPrecondition and unchanged. Otherwise `ReopenedView`. |
| TodoService.Service.MoveTodo | internal/app/service/todo_service.go:253-283 | Errors as UpdateTODO's. On success an update of parent and position only. |
| TodoService.MoveChangesOnlyPlacement | internal/app/service/todo_service.go:274-276 | A move changes only parent, position and update time. |
| TodoHandler.ListPagination | internal/app/handlers/todo_handler.go:205-218 | Page 1 and size 20 by default. A positive page is kept. A positive size is capped at 100. |
| TodoHandler.ListPageSizeNeedsNoNormalizing | internal/app/handlers/todo_handler.go:205-218 | The repository keeps the handler's page size as it is. |
| TodoHandler.Present | internal/app/handlers/todo_handler.go:172-202 | Exactly the non-nil sort options. |
| TodoHandler.SortOptionsOf | internal/app/handlers/todo_handler.go:172-202 | The loop keeps the non-nil options in order. |
| TodoHandler.ConvertFilter | internal/app/handlers/todo_handler.go:391-460 | The request's user, else the caller. Statuses and priorities are copied in order. A present search uses exactly title, description and tags. Unset criteria stay unset. |
| TodoHandler.ListTodos | internal/app/handlers/todo_handler.go:163-225 | Unauthenticated iff the context has no user. Otherwise the converted filter, the present sort options and the pagination defaults. |
| TodoHandler.ParseInt32 | internal/app/handlers/todo_handler.go:636-642 | Nothing parses from an empty string or a bare sign. The value is an int32 by its type. |
| TodoHandler.ParseInt32RoundTrip | internal/app/handlers/todo_handler.go:636-642 | Every int32 written in decimal parses back to itself. |
| TodoHandler.ParseInt32RejectsNonDigits | internal/app/handlers/todo_handler.go:636-642 | A non-digit after the first character is rejected. |
| TodoHandler.QueryGet | internal/app/handlers/todo_handler.go:483-487 | The first value of the parameter, or "". |
| TodoHandler.KnownValues | internal/app/handlers/todo_handler.go:490-505 | Exactly the values of the known names, one per name. Unknown names are dropped. |
| TodoHandler.DecodeNames | internal/app/handlers/todo_handler.go:490-505 | The decoding loop computes KnownValues. |
| TodoHandler.UnknownNameDropped | internal/app/handlers/todo_handler.go:490-505 | An unknown name leaves the decoded list unchanged. |
| TodoHandler.PageParam | internal/app/handlers/todo_handler.go:584-599 | A parsable positive value, else the default. |
| TodoHandler.DateParam | internal/app/handlers/todo_handler.go:508-542 | Set iff the parameter is present and parses. |
| TodoHandler.StringParam | internal/app/handlers/todo_handler.go:550-562 | Set iff the parameter is non-empty, to its value. |
| TodoHandler.SearchFilter | internal/app/handlers/todo_handler.go:480-581 | The filter: the user (default the caller), known statuses and priorities, dates, tags, assignee, parent, team. `is_shared` is true iff "true" or "1". The search sets its fields. |
| TodoHandler.HandleAdvancedSearch | internal/app/handlers/todo_handler.go:463-612 | Not GET is 405, no user is 401. Otherwise the filter, a page ≥ 1, a size in 1..100 and the sort, descending iff `sort_order == "desc"`. |
| WebSocketHandler.RequestToken | internal/app/handlers/websocket_handler.go:37-43 | A non-empty query token wins. "Bearer " is stripped only from a longer header. A header without the prefix is used as it is. |
| WebSocketHandler.BarePrefixKept | internal/app/handlers/websocket_handler.go:39-43 | The header "Bearer " alone is not stripped. |
| WebSocketHandler.HeaderTokenAgreesWithInterceptor | internal/app/handlers/websocket_handler.go:39-43 | For a non-empty bearer token the endpoint and the gRPC interceptor take the same token. |
| WebSocketHandler.GetUserTeamIds | internal/app/handlers/websocket_handler.go:79-95 | The team ids in listing order, one per team. NotFound gives the empty list. Other errors pass through. |
| WebSocketHandler.Handler.HandleWebSocket | internal/app/handlers/websocket_handler.go:35-76 | 401 for an empty token, a token the authentication service's ValidateToken rejects (`TokenCheck`), or no user id. 500 when teams cannot be listed or the upgrade fails. Otherwise a fresh client with the user's id and its team ids is registered, and nothing changes on error. |

## Left out

- The transport: socket reads and writes, ping timers, JSON marshalling, the HTTP upgrade, the
  `Run` goroutine with its channels, and the mutex. Register, unregister and broadcast are
  sequential operations. The writer's effect is `Client.Receive`.
- A `ping` on a full queue would block the reader, and one on a closed queue would panic. The
  model reports these as the outcomes `WouldBlock` and `SendOnClosedChannel` and leaves the queue
  as it was.
- Concurrency defects in the hub: the deletion under a read lock and the unsynchronised team-list
  mutation are not modelled.
- SQL execution, row scanning, migrations and transactions. The repositories are maps. The
  PostgreSQL `List` is modelled up to the statements and arguments it would send.
- bcrypt, JWT, the AWS SDK, Redis, configuration loading, UUIDs and the clock: these are
  parameters, or out of scope.
- Proto and JSON conversion in the handlers, and every handler's mapping of service errors to HTTP
  500. The reflection fallback for sort options is not modelled.
- ListTeamsByUser and ListTeamMembers, and the permission service's pass-through wrappers
  (GetUserTeams, GetTeamMembers, UpdateMemberRole, ShareTODOWithTeam, UnshareTODOFromTeam): each
  only forwards a repository listing or write.
- The media repository's SQL listing (ordered by upload time, newest first) and its count. Only
  the window that ListMedia asks for is modelled.
- DownloadFile and GetFileInfo beyond key recovery: their S3 calls are I/O.
- The names of the status and priority enumerations come from generated protobuf code, which is
  not part of this model. The tables in `TodoHandler` assume the `STATUS_*`/`PRIORITY_*` names
  that protoc generates.
- The unreachable "access denied" return at the end of checkAuthorization is not modelled.
- TodoService.Service.CreateTodo: a repository write failure (Internal) is not modelled. The mock
  repository's Create cannot fail.
- PermissionService.IsTeamOwner: a GetMember failure is reported as Unknown. The repository's
  error is a plain Go error, and no specific gRPC code is attached.
- TeamService.Service.UpdateTeam: the update time is written to the repository but is not
  refreshed on the team itself, as in the source.
- TodoService.CreatedConsistency: a TODO created with status COMPLETED has no completion time, as
  in the source. The lemma states that the invariant fails exactly then.
- MediaService.Service.UploadMedia: a storage InvalidArgument is reported as Internal, as the
  service wraps every upload error.
- MediaService.Service.DeleteMedia: when the record deletion fails after the object has been
  deleted, the record stays without its object. The contract states this, as the source does it.
- MediaService.ListMediaWindow: a negative page token gives a negative offset, as in the source.
- MockTodoRepository.MockRepository.BulkUpdateStatus: the status changes but the completion time
  does not, so the completion invariant can break, as in the source.
- Strings are sequences of characters, while Go strings are bytes: the length tests and slices
  of the bearer prefix (`RequestToken`, `BearerToken`) and the string helpers count characters,
  which differs from the source only for non-ASCII input.
- The other cascades of the schema are not modelled: TODOs live in a separate repository, so
  deleting a TODO leaves its shares, and users are never deleted.
- WebSocketService.TodoUpdateEvent: the message reaches every client, whatever its team id, as in
  the source.

## Findings

| source | as written | input that shows it | evidently intended | confidence | as-written member | corrected member |
|---|---|---|---|---|---|---|
| internal/infrastructure/database/postgres.go:629-645 | When the requested IDs and the team's shared IDs are disjoint, the intersection is an empty (nil) list, and List then applies no ID criterion. | Requested IDs `["requested"]`, shared IDs `["shared"]`: the query admits every TODO, including unshared ones. | An empty intersection should give an empty result. | not executed | PostgresRepository.DisjointRequestAdmitsUnsharedTodo | PostgresRepository.GetSharedTodosCorrected |
| internal/infrastructure/database/postgres.go:536-566 | BulkUpdateStatus binds n+3 arguments to n+2 placeholders: the status is appended twice, so `updated_at` (`$n+2`) receives the status. | Any non-empty ID list, e.g. `["a"]`: 4 arguments for `$1..$3`. | Bind the ids, then the status, then the current time. | not executed | PostgresRepository.BulkUpdateStatusArgumentMismatch | PostgresRepository.BulkUpdateStatusCorrected |
