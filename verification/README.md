# team-collab-backend, modelled in Dafny

This project models the request-handling core of team-collab-backend. That
backend serves teams, their members, projects and tasks over a REST API,
plus a realtime team chat over Socket.IO. Identities come from Firebase
tokens. The modelled core covers:

- the authentication middleware, which finds or creates the local user of a
  Firebase uid;
- the guards: global role, team membership, team context, team role, and the
  single ADMIN/MANAGER holder check;
- the team, team-member, project, task and dashboard controllers;
- the in-memory cache with per-entry expiry;
- the Socket.IO handshake, the team rooms and the chat relay.

## How the model is built

- There is one Dafny module per source file. `Common`, `Text` and `Store`
  hold shared definitions: JavaScript truthiness, the string operations the
  handlers use, and the collections.
- The MongoDB collections are `seq` fields of the class `Store.Db`, in
  insertion order, which is the order `find` returns them in. A handler that
  writes is a method that names the fields it may change with `modifies`.
  Its `ensures` gives the new collection as a function of the old one.
- Read-only handlers are functions. Lemmas state what each one promises:
  - who may read what;
  - which entries a listing holds, and in which order;
  - which status every error path answers.
- The cache is the class `Cache.SimpleCache`. The Socket.IO server is the
  class `SocketServer.RealtimeServer`. Each holds its state in a `map` that
  its methods reassign.
- Foreign calls become parameters:
  - Firebase `verifyIdToken`, `getUser` and `createUser`;
  - the ObjectId of a new document;
  - `Date.now()`.

  A call that may throw is a function that yields an `Option`, where `None`
  means it threw. A new id is a parameter with a freshness precondition.
- A handler reads its `req.user`, `req.teamContext`, path and body values as
  plain inputs. The guards and the authentication middleware are modelled
  separately.
- The authentication middleware sets `req.user` to `{id, email, name}` only:
  - `RoleMiddleware.AuthenticatedUserRefused` shows that the role guard then
    answers 403 for every allow-list.
  - `TeamMiddleware.AuthenticatedUserHasNoTeam` shows that the team guard
    then answers 403.

  Several handlers read `req.user._id`, `req.user.globalRole` or
  `req.user.teamId`, which that middleware does not set. The model takes
  those values as given.
- Mongoose validation rejects some documents: a task with a blank title or
  an unknown status, a project without an `adminId`, and a team without an
  `adminId`. The task and project handlers do not catch that rejection, so
  no response is sent and nothing is written; the model reports it as a
  `Rejected` outcome. `createTeam` catches it and answers 500, and since it
  never sets `adminId`, it never creates a team.
- The authentication middleware stores the user document's ObjectId in
  `req.user.id`. The team-context middleware and `updateTask` compare that
  value with a string using `===`, which never holds for an ObjectId. The
  model keeps `req.user.id` as `Common.ReqId`, either an ObjectId or a
  string, and compares it strictly. As a result, a caller coming through the
  authentication middleware is never recognised as a team's admin and, as a
  MEMBER, is refused every task update.

## Model

| member | source | states |
|---|---|---|
| AuthMiddleware.BearerToken | src/middleware/auth.middleware.js:9-13 | A token exists exactly when the header starts with "Bearer ". It is then the text after the prefix up to the next space, and it contains no space. |
| AuthMiddleware.NewUserName | src/middleware/auth.middleware.js:20-23 | A new user is named with the provider's display name when there is one. Otherwise the name is the part of the email before the first '@': a prefix of the email without '@'. |
| AuthMiddleware.UserByUid | src/middleware/auth.middleware.js:17 | The lookup finds a user with that uid, and finds none exactly when no stored user has it. |
| AuthMiddleware.MissingHeaderRejected | src/middleware/auth.middleware.js:9-13 | A missing or non-Bearer header is answered "Authorization token missing". Neither the provider nor the database is consulted, and the users are unchanged. |
| AuthMiddleware.OnlyBearerTokenVerified | src/middleware/auth.middleware.js:9-15 | The outcome depends on the header only through its bearer token. |
| AuthMiddleware.FailureIsInvalidToken | src/middleware/auth.middleware.js:14-43 | When verification, the profile lookup or the database fails, the answer is 401 "Invalid or expired token" and the users are unchanged. |
| AuthMiddleware.FirstSightCreatesOneUser | src/middleware/auth.middleware.js:17-24 | An unknown uid whose email another user already has is refused with 401 "Invalid or expired token", because the unique email index makes the creation throw, and the users are unchanged. Any other unknown uid adds exactly one user, with that uid, the token's email and the new-user name. `req.user` is that user. |
| AuthMiddleware.KnownUserOnlyRenamed | src/middleware/auth.middleware.js:25-37 | A known uid creates nobody. At most that user's name changes: to the provider's display name when it is non-empty. |
| AuthMiddleware.ResolveKeepsUidsUnique | src/middleware/auth.middleware.js:17-31 | When no two users share a uid before the request, none do after it. |
| AuthMiddleware.ResolveKeepsEmailsUnique | src/middleware/auth.middleware.js:17-24 | When no two users share an email before the request, none do after it: a new user is only created for an email nobody has. |
| AuthMiddleware.ResolveTwiceSameUser | src/middleware/auth.middleware.js:17-37 | Authenticating the same token twice yields the same user id the second time, and creates nobody the second time. |
| AuthMiddleware.Authenticate | src/middleware/auth.middleware.js:5-44 | The middleware over the database: its outcome and the new users are those of `Resolve`. An authenticated `req.user` is a stored user. |
| RoleMiddleware.AsGuardUser | src/middleware/auth.middleware.js:33-37 | The user the authentication middleware sets has no role and no truthy team id. |
| RoleMiddleware.RoleGuardDecision | src/middleware/role.middleware.js:3-21 | The request proceeds exactly when a user is present whose role is in the allow-list. A present user outside the list gets 403. |
| RoleMiddleware.UnauthenticatedFirst | src/middleware/role.middleware.js:6-10 | A missing user gets 401 whatever the allow-list. |
| RoleMiddleware.DefaultDeniesAll | src/middleware/role.middleware.js:3 | The default empty allow-list refuses everyone. |
| RoleMiddleware.AuthenticatedUserRefused | src/middleware/role.middleware.js:13-17 | Behind the authentication middleware, every request gets 403 whatever the allow-list. |
| TeamMiddleware.TeamGuardDecision | src/middleware/team.middleware.js:1-17 | The request proceeds exactly when a user with a truthy team id is present. No user gets 401; no team gets 403. |
| TeamMiddleware.TeamGuardIgnoresRole | src/middleware/team.middleware.js:1-17 | The decision does not depend on the user's role. |
| TeamMiddleware.AuthenticatedUserHasNoTeam | src/middleware/team.middleware.js:9-14 | Behind the authentication middleware, every request gets 403 "User does not belong to any team". |
| TeamContextMiddleware.RequestedTeamId | src/middleware/teamContext.middleware.js:6-9 | The team id is the truthy path parameter, or else the truthy body field, or else none. |
| TeamContextMiddleware.MissingTeamIdIs400 | src/middleware/teamContext.middleware.js:6-9 | Without a truthy team id the answer is 400, before the user is looked at. |
| TeamContextMiddleware.NoUserIs401 | src/middleware/teamContext.middleware.js:11-13 | With a team id but no user the answer is 401, and the database is not consulted. |
| TeamContextMiddleware.OwnTeamFastPath | src/middleware/teamContext.middleware.js:15-20 | A caller whose own team is the requested one proceeds with their global role. The database is not consulted. |
| TeamContextMiddleware.OtherTeamSlowPath | src/middleware/teamContext.middleware.js:22-37 | For any other team: a lookup error is 500 and a missing team 404. A caller whose id strictly equals the team's adminId proceeds as ADMIN; everyone else gets 403. |
| TeamContextMiddleware.NextExactlyWhenEntitled | src/middleware/teamContext.middleware.js:4-38 | The request proceeds exactly when the caller is in the requested team or its id strictly equals the stored adminId. |
| TeamContextMiddleware.RejectionStatuses | src/middleware/teamContext.middleware.js:4-38 | Every rejection carries one of 400, 401, 403, 404 or 500. |
| TeamContextMiddleware.ObjectIdCallerOnlyViaOwnTeam | src/middleware/teamContext.middleware.js:15-33 | A caller whose id is an ObjectId proceeds exactly when they are in the requested team: the strict comparison with the adminId string never holds. |
| TeamContextMiddleware.FromAuth | src/middleware/auth.middleware.js:33-37 | The `req.user` the authentication middleware sets carries an ObjectId id, no role and no team id. |
| TeamContextMiddleware.AuthenticatedUserGetsNoContext | src/middleware/teamContext.middleware.js:15-33 | Behind the authentication middleware every request is rejected, with 403 for an existing team. |
| RequireTeamRole.RequireTeamRoleDecision | src/middleware/requireTeamRole.middleware.js:2-18 | The request proceeds exactly when a team context exists whose role is in the allow-list. A missing context is 500; a role outside the list is 403. |
| RequireTeamRole.DefaultDeniesAll | src/middleware/requireTeamRole.middleware.js:2 | The default empty allow-list refuses every context. |
| RequireTeamRole.TeamRouteLists | src/routes/team.routes.js:41-55 | Deleting a team admits ADMIN only. Updating a team admits ADMIN and MANAGER. |
| RoleConstraints.SingleRoleDecision | src/middleware/roleConstraints.js:4-19 | MEMBER always passes. ADMIN or MANAGER fails with 400 "Team already has a <role>" exactly when the team has an accepted holder of that role. |
| RoleConstraints.IrrelevantMappingsIgnored | src/middleware/roleConstraints.js:9-13 | A mapping that is only INVITED, or that belongs to another team, never changes the verdict. |
| TeamMemberController.InvitableRole | src/controller/teamMember.controller.js:15-20 | An invitation may grant MEMBER (the default) or MANAGER, never ADMIN. |
| TeamMemberController.AppendKeepsUniquePairs | src/controller/teamMember.controller.js:57-75 | Adding a mapping for a pair that is not yet mapped keeps every (user, team) pair mapped at most once. |
| TeamMemberController.AppendKeepsSingleManager | src/controller/teamMember.controller.js:23-35 | Adding a mapping that is not an accepted MANAGER keeps at most one accepted MANAGER per team. |
| TeamMemberController.InviteeId | src/controller/teamMember.controller.js:38-54 | The invitee is the new user or a stored user with exactly that email. |
| TeamMemberController.InviteToTeam | src/controller/teamMember.controller.js:13-89 | A role other than MEMBER or MANAGER, or a second accepted MANAGER, is refused with 400 before anything is written. An unknown email whose account cannot be created is a 500 with nothing written. Otherwise an unknown email gets a new MEMBER user named after it. The invitee is the first user with that exact email, or that new user. A pair already mapped is refused with 400 "User already part of this team" and no mapping is added. Otherwise exactly one ACCEPTED mapping, invited by the caller, is appended. The invitation succeeds exactly when all these checks pass. Unique pairs and the single accepted manager are preserved. |
| TeamMemberController.GetTeamMembers | src/controller/teamMember.controller.js:94-110 | The listing is the team's mappings in table order, each as its entry: entry k is the populated view of the k-th mapping of the team. |
| TeamMemberController.ListedMembersBelongToTeam | src/controller/teamMember.controller.js:95-98 | Every listed entry comes from a mapping of the requested team. |
| TeamMemberController.EveryTeamMappingListed | src/controller/teamMember.controller.js:95-98 | Every mapping of the requested team is listed. |
| TeamController.GetTeamsScope | src/controller/team.controller.js:5-28 | An admin gets every active team. Anyone else gets exactly the active teams that link them as a member. |
| TeamController.GetTeamsInOrder | src/controller/team.controller.js:17-22 | The listing keeps collection order: a team stored after the others is listed after them exactly when it is visible. |
| TeamController.GetTeamByIdAccess | src/controller/team.controller.js:31-59 | The team is returned exactly when it exists and the caller is an admin or a populated member. An unknown team is 404; any other refusal is 403. |
| TeamController.Entries | src/controller/team.controller.js:88-100 | One listing entry per member, in order. The email is the stored one, or else the populated user's. |
| TeamController.ListedTeamId | src/controller/team.controller.js:63 | The team id is the truthy `teamId` parameter, or else the truthy `id` parameter, or else none. |
| TeamController.GetTeamMembersAccess | src/controller/team.controller.js:62-105 | No team id is 400, an unknown team 404, and a non-admin whom no member matches 403. The listing is served exactly when none of these applies, and is then the team's id, name and member entries. |
| TeamController.GetTeamMembersListing | src/controller/team.controller.js:62-105 | When the listing is served, the team exists and the caller is an admin, is linked, or matches a member's email ignoring case. The listing is then the team's id, its name and one entry per member. |
| TeamController.InvitedEmailMayList | src/controller/team.controller.js:76-85 | A non-admin whose email matches an unlinked member's, ignoring case, is admitted. |
| TeamController.CreateTeam | src/controller/team.controller.js:108-135 | A non-admin gets 403 before the name is read. A missing or blank name gets 400. Otherwise the team is created exactly when the Team schema accepts the new document, and it is then that document. |
| TeamController.NewTeam | src/controller/team.controller.js:117-124 | The document built has no adminId, is active and has no members and no projects. |
| TeamController.CreateTeamAlwaysFails | src/controller/team.controller.js:108-135 | Every request ends in an error: an admin request with a name gets 500 "Failed to create team", because the Team schema requires the adminId the document lacks. |
| TeamController.InviteTeamMember | src/controller/team.controller.js:138-186 | Checks in source order: 403, 400, 404, duplicate email 400. The invitation succeeds exactly when all four pass. On success exactly one member is appended to that team, with the lowercased email and the role asked for (MEMBER by default). It is ACCEPTED and linked when a user has that email, INVITED otherwise. Nothing else changes. |
| TeamController.ChangeTeamMemberRole | src/controller/team.controller.js:189-222 | A non-admin gets 403, an unknown team 404 and an unknown member 404. The change succeeds exactly when none of these applies. The first member linking that user then gets the new role (MEMBER by default) and becomes ACCEPTED. No other member and no other team changes. |
| ProjectController.InvalidationMissesListings | src/controller/project.controller.js:118-119 | The key a mutation deletes is never an admin listing's key. It equals a team listing's key only for a team whose id starts with "team_". |
| ProjectController.StaleListingsSurvive | src/controller/project.controller.js:204-206 | Deleting a team's invalidation key leaves that team's cached listing, and every admin listing, readable as before. |
| ProjectController.TeamManager | src/controller/project.controller.js:28-31 | The manager found is a MANAGER user of that team. None is found exactly when the team has no such user. |
| ProjectController.FormatAdminProjects | src/controller/project.controller.js:25-48 | One entry per project, in order, with its team's name and description and its team's manager. A project whose team is missing makes the listing fail. |
| ProjectController.AdminViewFacts | src/controller/project.controller.js:33-47 | An entry names the project's own team, and its manager belongs to that team. |
| ProjectController.AdminProjects | src/controller/project.controller.js:20-22 | Exactly the projects whose adminId is the caller. |
| ProjectController.AdminProjectsInOrder | src/controller/project.controller.js:20-22 | The admin's projects keep collection order: a project stored after the others is listed after them exactly when its adminId is the caller. |
| ProjectController.GetAllProjectsForAdmin | src/controller/project.controller.js:10-58 | A live cached listing is returned as is. Otherwise the listing fails with 500 exactly when one of the caller's projects has no team. Else entry k is the view of the caller's k-th project with its team and manager, and the listing is cached under the caller's key for 300 seconds. |
| ProjectController.GetProjectsForTeam | src/controller/project.controller.js:63-90 | A caller without a team gets an empty list and the cache is untouched. Otherwise the cached listing, or the team's projects, which are then cached. |
| ProjectController.CreateProject | src/controller/project.controller.js:95-122 | A missing or blank name gets 400 and an unknown team 404, before anything is written. A team without adminId makes the schema reject the project, exactly in that case. Otherwise the project is stored, with the trimmed name and the team's adminId, and the key "projects_<team>" is deleted. |
| ProjectController.ApplyUpdate | src/controller/project.controller.js:223-227 | The name becomes the trimmed body name when that is truthy. The description changes when the body's is truthy. Nothing else changes. |
| ProjectController.ScopedIndex | src/controller/project.controller.js:223-224 | The first project with that id in that team, or none exactly when there is no such project. |
| ProjectController.UpdateProject | src/controller/project.controller.js:214-238 | A non-empty blank name gets 400. A project that is not in the caller's team gets 404 and nothing changes. The update is applied exactly when neither applies: only that project changes, as `ApplyUpdate` says. |
| ProjectController.EmptyNameSkipped | src/controller/project.controller.js:219-225 | An empty name is never refused and leaves the stored name as it was. |
| ProjectController.DeleteProject | src/controller/project.controller.js:199-209 | The project with that id is removed, whichever team it belongs to. The invalidation key is deleted and "Project deleted" is answered. |
| ProjectController.ProjectManagerIsTeamManager | src/controller/project.controller.js:127-166 | The reported team is the project's own team. The members are exactly the users of that team. The reported manager is the first MANAGER among them, the same user as the team's manager. |
| ProjectController.MemberViews | src/controller/project.controller.js:263-272 | One entry per project, in order, carrying its team's name. The listing fails when some team is missing. |
| ProjectController.AssignedProjectIdsExact | src/controller/project.controller.js:248-251 | The queried id set holds a project id exactly when the member has a task assigned in that project. |
| ProjectController.MemberProjectsSound | src/controller/project.controller.js:243-279 | Every listed project is one in which the member has an assigned task. |
| ProjectController.MemberProjectsComplete | src/controller/project.controller.js:243-279 | Every project in which the member has an assigned task is listed, with its team's name. |
| ProjectController.LackingCountIsFound | src/controller/project.controller.js:175-189 | The reported count equals the number of projects without an adminId. |
| ProjectController.MigrateAdminIds | src/controller/project.controller.js:172-194 | Every project lacking an adminId whose team is known gets that team's adminId. Other projects are untouched. The message reports the number of projects that lacked one. |
| ProjectController.SetMigrated | src/controller/project.controller.js:181-185 | One update: only the project at that position is replaced by its migrated form. |
| ProjectController.MigratedChangesOnlyAdminId | src/controller/project.controller.js:178-185 | Migration changes nothing but adminId, and only where it was missing. |
| TaskController.GetTasksScoped | src/controller/task.controller.js:8-17 | The listing is served exactly when the queried project belongs to the context team. It then holds every task of that project and no other task. |
| TaskController.NewTask | src/controller/task.controller.js:23-29 | A body with a non-blank title, a project, and valid status and priority becomes a task with those fields, defaulting to TODO and MEDIUM. Any other body is rejected. |
| TaskController.CreateTask | src/controller/task.controller.js:23-29 | Exactly one task is appended when the body is valid. Otherwise the tasks are unchanged. |
| TaskController.Merge | src/controller/task.controller.js:48 | Present body fields overwrite the task's fields. An invalid title, status or priority rejects the save. |
| TaskController.MergeOverwritesPresentFields | src/controller/task.controller.js:48-49 | Every field the body carries ends up in the saved task, and the id is kept. |
| TaskController.MergeEmptyBody | src/controller/task.controller.js:48-49 | An empty body saves the task unchanged. |
| TaskController.UpdateGate | src/controller/task.controller.js:41-46 | ADMIN, MANAGER and a context without a role always pass. A MEMBER is refused with 403 exactly when `req.user.id` is not strictly the assignee's id as a string, so always when it is an ObjectId. |
| TaskController.AssigneeMovesStatus | src/controller/task.controller.js:37-52 | A caller whose `req.user.id` is the assignee's id as a string may set any status, and only the status changes. |
| TaskController.UpdateTask | src/controller/task.controller.js:37-52 | The tasks change only when the update is saved, and then only at that task's position. |
| TaskController.DeleteTask | src/controller/task.controller.js:57-60 | The task with that id is removed when there is one. "Task deleted" is answered either way, with no role or team check. |
| TaskController.DeleteRemovesOnlyThatTask | src/controller/task.controller.js:58 | After the deletion no task has that id, and every other task remains. |
| DashboardController.CompletionRate | src/controller/dashboard.controller.js:28-31 | The rate is 0 exactly when there are no tasks. Otherwise it is the share completed/total. |
| DashboardController.AdminDashboardFacts | src/controller/dashboard.controller.js:7-41 | The first five active teams are listed (all of them when fewer), in order, with their member and project counts. Completed tasks never exceed the total. |
| DashboardController.ManagerDashboardFacts | src/controller/dashboard.controller.js:44-101 | Completed tasks never exceed assigned tasks. Each managed team is listed, in order, with its member count. The top member is the first stored user linked from a managed team, and is null exactly when no such user exists. |
| DashboardController.ManagerQueryAcceptsPlainMember | src/controller/dashboard.controller.js:48-52 | A team that links the user as a plain MEMBER counts as managed as soon as any member is a MANAGER. |
| DashboardController.PendingIsZero | src/controller/dashboard.controller.js:118 | No task status is "PENDING", so the pending count is always 0. |
| DashboardController.MemberDashboardFacts | src/controller/dashboard.controller.js:104-138 | Completed plus in-progress never exceed assigned tasks. The recent teams are the first three of the user's active teams (all of them when fewer), in order, each as its id and name. The rate is 0 exactly when nothing is assigned. |
| Cache.Lookup | src/utils/cache.js:12-24 | A read yields the stored value exactly when the key is present and not expired at that instant. |
| Cache.AfterLookup | src/utils/cache.js:17-20 | A read evicts the key exactly when its entry has expired, and nothing else. |
| Cache.SimpleCache.constructor | src/utils/cache.js:2-5 | A new cache is empty. |
| Cache.SimpleCache.Set | src/utils/cache.js:7-10 | The key holds the value until now + ttl seconds, with a default ttl of 300 seconds. Other keys are untouched. |
| Cache.SimpleCache.Get | src/utils/cache.js:12-24 | Answers `Lookup` and leaves the content `AfterLookup` gives. |
| Cache.SimpleCache.Delete | src/utils/cache.js:26-28 | The key is removed, and the answer says whether it was present. |
| Cache.SimpleCache.Clear | src/utils/cache.js:30-32 | The cache becomes empty. |
| Cache.AbsentKeyReadsNull | src/utils/cache.js:13-14 | A key never set, or deleted, reads as null and evicts nothing. |
| Cache.SetThenLookup | src/utils/cache.js:7-24 | After a set, the value is read back up to and including its expiry instant and is null afterwards. |
| Cache.OtherKeysUnaffected | src/utils/cache.js:7-28 | Setting, deleting or evicting one key never changes what another key reads. |
| Cache.LiveReadChangesNothing | src/utils/cache.js:12-24 | A read that finds a live entry leaves the cache unchanged. |
| SocketServer.HandshakeToken | src/socket/index.js:19-21 | The token is the truthy auth token, or else the truthy second word of the Authorization header, or else none. |
| SocketServer.BearerHeaderToken | src/socket/index.js:19-21 | The header "Bearer <token>" yields the token when no auth token is given. |
| SocketServer.AuthenticateOutcomes | src/socket/index.js:17-49 | The handshake refuses exactly for a missing token, a rejected token or an unknown uid. An accepted socket carries the snapshot of a stored user with the verified uid. |
| SocketServer.InitialRooms | src/socket/index.js:55-61 | A connecting socket joins its own team's room when it has a team, and no room otherwise. |
| SocketServer.JoinRule | src/socket/index.js:64-72 | A non-admin may join exactly their own team's room. A teamless socket may join "team:null". An undefined id is refused to non-admins. |
| SocketServer.RealtimeServer.constructor | src/socket/index.js:7 | Before `initSocket` there is no server and no socket. |
| SocketServer.RealtimeServer.InitSocket | src/socket/index.js:9-14 | After `initSocket` the server exists and has no socket. |
| SocketServer.RealtimeServer.GetIO | src/socket/index.js:91-96 | `getIO` throws "Socket.IO not initialized" exactly when `initSocket` has not run. |
| SocketServer.RealtimeServer.Connect | src/socket/index.js:17-61 | A refused handshake changes nothing. An accepted one registers the socket with its snapshot and initial rooms. |
| SocketServer.RealtimeServer.JoinTeamRoom | src/socket/index.js:64-72 | The socket gains the room exactly when the join rule allows it. Nothing else changes. |
| SocketServer.RealtimeServer.LeaveTeamRoom | src/socket/index.js:75-80 | The socket loses that room, whoever it is. Nothing else changes. |
| SocketServer.RealtimeServer.Disconnect | src/socket/index.js:82-84 | The socket and its room memberships are gone. |
| SocketServer.RoomMembers | src/socket/index.js:57-69 | A socket is in a room's audience exactly when it is connected and has joined that room. |
| SocketServer.OnlyOwnRoomKept | src/socket/index.js:56-80 | A non-admin socket only ever sits in its own team's room, through connecting, joining and leaving. |
| ChatSockets.Compose | src/socket/chat.sockets.js:16-21 | The message carries the content as sent, the sender's id and team, and the send instant. |
| ChatSockets.ChatSend | src/socket/chat.sockets.js:8-33 | A missing, empty or non-string content emits nothing. Otherwise one "chat:new-message" goes to the sender's team room, received by exactly the sockets in that room. |
| ChatSockets.OtherTeamsHearNothing | src/socket/chat.sockets.js:28-31 | A socket that is only in other teams' rooms does not receive the message. |
| ChatSockets.TeamlessSenderRoom | src/socket/chat.sockets.js:23-28 | A sender without a team broadcasts to "team:null". |
| Text.Trim | src/controller/project.controller.js:99 | The trimmed string is a slice of the input whose prefix and suffix outside it are blank, and it neither starts nor ends with white space. |
| Text.TrimEmptyIffBlank | src/controller/project.controller.js:99 | A string trims to empty exactly when it is all whitespace. |
| Text.ToLowerIdempotent | src/controller/team.controller.js:83 | Lowercasing twice equals lowercasing once. |
| Text.JoinSplit | src/middleware/auth.middleware.js:13 | Joining the fields of a split back with the separator gives the original string. |
| Text.SplitJoin | src/middleware/auth.middleware.js:13 | Splitting separator-free fields joined with the separator gives the fields back. |
| Text.NatToStringRoundTrip | src/controller/project.controller.js:189 | The decimal rendering of a count reads back as that count. |

## Left out

- Firebase, MongoDB and Socket.IO themselves are not modelled. Their calls are parameters or `Db` fields. A call that throws is a `None` answer.
- Concurrency is not modelled. Each handler runs alone against one snapshot of the collections, so the races between a check and the following write are not captured.
- Store failures are modelled where the model gives them an answer: the authentication middleware (401), the team-context lookup (500), the account creation in `inviteToTeam` (500), and a project whose team is missing in the two project listings (500). The other `catch` blocks are not modelled, and there the database is assumed to answer: src/controller/team.controller.js lines 24, 55, 101, 182 and 218; src/controller/dashboard.controller.js lines 37, 97 and 134; src/controller/project.controller.js lines 86, 160 and 190; the database calls of `inviteToTeam` (src/controller/teamMember.controller.js line 85); and the user lookup of the socket handshake (src/socket/index.js line 46), where the model's users always answer.
- Mongoose `populate`, `select` and `lean` are reduced to the fields the handlers read.
- Ids taken from a request (path, body or query) are compared with stored ids as exact strings, in their canonical lower-case 24-digit hex form. Three things are not modelled: Mongoose's case-insensitive cast of an id to an ObjectId, the lowercasing of a 24-digit hex argument by `ObjectId.equals` (src/controller/team.controller.js lines 158 and 201), and the CastError a non-hex id raises. So `TeamById`, `ProjectIndex`, `TaskIndex`, `InviteTeamMember` and `ChangeTeamMemberRole` miss a document whose id the request spells in upper case, where the service finds it.
- Timestamps (`createdAt`, `updatedAt`, `joinedAt`) are not modelled.
- The order of `find` results is collection order. A `sort` is not modelled.
- The Project schema has no `createdBy`. The model keeps the value the handler passes.
- The Team schema lacks `members`, `createdBy` and `projectIds`. The model keeps them as the handlers use them.
- A team without an `adminId` can only come from outside the modelled handlers, since `createTeam` never stores one. `createProject` on such a team is `Rejected`, because the Project schema requires an `adminId`.
- Schema validation is modelled only for tasks (title, enumerations, project), for a project's `adminId` and for a team's `adminId`.
- The User schema requires `role`, yet the authentication middleware creates users without one. That validation is left out, so such users are stored.
- The dashboard counts over fields that no schema has are parameters: `isArchived`, `manager` and `globalRole`.
- DashboardController.CompletionRate: the percentage is kept as the pair (completed, total). The floating-point division and `toFixed(2)` rendering are not modelled.
- `updateTask` cannot tell a field sent as `null` from an absent one; only absent and present values are modelled.
- TaskController.GetTasks: a missing `projectId` query is taken to find no project (404).
- ProjectController.MigrateAdminIds: it updates projects by their position in the collection rather than by a second query on `_id`.
- The task routes pass `:id` while the handlers read `req.params.taskId`. Task routes also attach no team context. The handlers are modelled with the values they read, and route wiring is not part of this model.
- The assistant service, the message controller, the validators, the rate limiter, app and server setup, and logging are not part of this model.
- CORS options of the Socket.IO server are not modelled.
- ChatSockets.ChatSend: it models the "chat:send" handler of `registerChatHandlers`, but src/socket/index.js never calls `registerChatHandlers`, so in the service as written no socket has that handler and a sent message reaches nobody. The model states what the handler does once registered.
- A socket's own default room (its socket id) is not modelled.
- Lowercasing is ASCII only. Trimming knows the ASCII white space, the no-break space, the byte-order mark and the line and paragraph separators, but not the other Unicode space separators.
- The decoded Firebase token is taken to carry an email.
- Rejections that no handler catches become a `Rejected` or `None` outcome. In the service such a request gets no response.
