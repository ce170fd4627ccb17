/** Projects of a team (src/controller/project.controller.js): the admin's and
    the team's project listings, which are served from the shared cache, and
    the create, update, delete and migration handlers, which change the
    collection and delete one cache key.

    The listings read the keys `all_projects_admin_<user id>` and
    `projects_team_<team id>`, while the mutations delete `projects_<team id>`:
    the model states, as the code has it, that a mutation never invalidates a
    listing that is already cached. */
module ProjectController {

  import opened Common
  import opened Text
  import opened Store
  import opened Cache

  /** The team manager as the admin listing shows it. */
  datatype ManagerView = ManagerView(name: string, email: string)

  /** One entry of the admin listing. */
  datatype AdminProjectView = AdminProjectView(
    id: Id, name: string, description: Option<string>, teamId: Id, createdBy: Option<Id>,
    teamName: string, teamDescription: Option<string>, manager: Option<ManagerView>)

  /** One entry of the member's project listing. */
  datatype MemberProjectView = MemberProjectView(
    id: Id, name: string, description: Option<string>, teamId: Id, teamName: string, createdBy: Option<Id>)

  /** The body of `getProjectById`: the project, its team (null when missing),
      the team's manager (null when none) and the users of the team. */
  datatype ProjectDetails = ProjectDetails(project: Project, team: Option<Team>, manager: Option<User>, members: seq<User>)

  /** What the shared cache holds for the project handlers: a listing. */
  datatype Listing = AdminListing(admin: seq<AdminProjectView>) | TeamListing(projects: seq<Project>)

  /** What a mutation handler does: the stored project, a response with an
      error status, or a validation rejection that nothing handles (no
      response, nothing written, no cache key deleted). */
  datatype ProjectReply = Stored(project: Project) | Refused(status: int, message: string) | Rejected

  /** The cache key of the admin listing. */
  function AdminKey(userId: Id): string
  {
    "all_projects_admin_" + userId
  }

  /** The cache key of the team listing. */
  function TeamKey(teamId: Id): string
  {
    "projects_team_" + teamId
  }

  /** The cache key the mutations delete. */
  function InvalidationKey(teamId: Id): string
  {
    "projects_" + teamId
  }

  /** The key a mutation deletes is never an admin listing's key, and is a
      team listing's key only for a context team id that itself starts with
      "team_" followed by the listed team's id. */
  lemma {:induction false} InvalidationMissesListings(t: Id, u: Id, listed: Id)
    ensures InvalidationKey(t) != AdminKey(u)
    ensures InvalidationKey(t) == TeamKey(listed) <==> t == "team_" + listed
  {
    assert InvalidationKey(t)[0] == 'p' && AdminKey(u)[0] == 'a';
    if InvalidationKey(t) == TeamKey(listed) {
      calc {
        t;
        InvalidationKey(t)[|"projects_"|..];
        TeamKey(listed)[|"projects_"|..];
        "team_" + listed;
      }
    }
    if t == "team_" + listed {
      assert "projects_" + ("team_" + listed) == "projects_team_" + listed;
    }
  }

  /** Deleting the invalidation key of a team leaves a cached listing of that
      same team, and every admin listing, exactly as it was. */
  lemma StaleListingsSurvive(entries: map<string, Entry<Listing>>, teamId: Id, userId: Id, now: int)
    requires teamId != "team_" + teamId
    ensures Lookup(entries - {InvalidationKey(teamId)}, TeamKey(teamId), now) == Lookup(entries, TeamKey(teamId), now)
    ensures Lookup(entries - {InvalidationKey(teamId)}, AdminKey(userId), now) == Lookup(entries, AdminKey(userId), now)
  {
    InvalidationMissesListings(teamId, userId, teamId);
  }

  /** `User.findOne({ teamId, role: 'MANAGER' })`: the first user of that team
      with the MANAGER role. */
  function TeamManager(users: seq<User>, teamId: Id): (r: Option<User>)
    ensures r.Some? ==> r.value in users && r.value.teamId == Some(teamId) && r.value.role == Some(MANAGER)
    ensures r.None? <==> forall i :: 0 <= i < |users| ==> !(users[i].teamId == Some(teamId) && users[i].role == Some(MANAGER))
  {
    Find(users, ManagerOf(teamId))
  }

  /** The test of `TeamManager`: a MANAGER user of the team. */
  function ManagerOf(teamId: Id): User -> bool
  {
    (u: User) => u.teamId == Some(teamId) && u.role == Some(MANAGER)
  }

  /** The test of `User.find({ teamId })`. */
  function InTeam(teamId: Id): User -> bool
  {
    (u: User) => u.teamId == Some(teamId)
  }

  /** The test of `members.find((m) => m.role === "MANAGER")`. */
  predicate IsManager(u: User)
  {
    u.role == Some(MANAGER)
  }

  /** The admin listing's entry for a project whose team is known. */
  function AdminView(p: Project, team: Team, users: seq<User>): AdminProjectView
  {
    var m := TeamManager(users, team.id);
    AdminProjectView(p.id, p.name, p.description, team.id, p.createdBy, team.name, team.description,
                     if m.Some? then Some(ManagerView(m.value.name, m.value.email)) else None)
  }

  /** The push loop of `getAllProjectsForAdmin`: one entry per project, in
      order, with its team's name and description and the team's manager; it
      fails (the handler answers 500) when some project's team is missing,
      since reading the populated team's id then throws. */
  method FormatAdminProjects(projects: seq<Project>, teams: seq<Team>, users: seq<User>)
    returns (r: Option<seq<AdminProjectView>>)
    ensures r.None? <==> exists k :: 0 <= k < |projects| && TeamById(teams, projects[k].teamId).None?
    ensures r.Some? ==> |r.value| == |projects|
    ensures r.Some? ==> forall k :: 0 <= k < |projects| ==>
              && TeamById(teams, projects[k].teamId).Some?
              && r.value[k] == AdminView(projects[k], TeamById(teams, projects[k].teamId).value, users)
  {
    var formatted: seq<AdminProjectView> := [];
    for i := 0 to |projects|
      invariant |formatted| == i
      invariant forall k :: 0 <= k < i ==>
                  && TeamById(teams, projects[k].teamId).Some?
                  && formatted[k] == AdminView(projects[k], TeamById(teams, projects[k].teamId).value, users)
    {
      var team := TeamById(teams, projects[i].teamId);
      if team.None? {
        return None;
      }
      formatted := formatted + [AdminView(projects[i], team.value, users)];
    }
    return Some(formatted);
  }

  /** Every entry of a formatted admin listing names a project's own team and
      that team's manager, if it has one. */
  lemma AdminViewFacts(p: Project, team: Team, users: seq<User>)
    ensures AdminView(p, team, users).id == p.id && AdminView(p, team, users).teamId == team.id
    ensures AdminView(p, team, users).manager.None? <==>
              forall i :: 0 <= i < |users| ==> !(users[i].teamId == Some(team.id) && users[i].role == Some(MANAGER))
  {
  }

  /** `Project.find({ adminId })`: the projects whose adminId is the user, in order. */
  function AdminProjects(projects: seq<Project>, userId: Id): (r: seq<Project>)
    ensures forall k :: 0 <= k < |r| ==> r[k] in projects && r[k].adminId == Some(userId)
    ensures forall i :: 0 <= i < |projects| && projects[i].adminId == Some(userId) ==> projects[i] in r
  {
    Filter(projects, AdminOf(userId))
  }

  /** The test of `Project.find({ adminId })`. */
  function AdminOf(userId: Id): Project -> bool
  {
    (p: Project) => p.adminId == Some(userId)
  }

  /** The admin's projects keep the collection's order: a project stored
      after the others is listed after them, when it is listed at all. */
  lemma AdminProjectsInOrder(projects: seq<Project>, p: Project, userId: Id)
    ensures AdminProjects(projects + [p], userId) ==
            AdminProjects(projects, userId) + (if p.adminId == Some(userId) then [p] else [])
  {
    FilterAppend(projects, p, AdminOf(userId));
  }

  /** `getAllProjectsForAdmin`: a cached listing under the caller's key is
      answered as it is; otherwise the projects whose adminId is the caller
      are formatted, cached for 300 seconds and answered, or 500 when a team
      is missing (and nothing is cached). */
  method GetAllProjectsForAdmin(db: Db, cache: SimpleCache<Listing>, callerId: Id, now: int)
    returns (reply: Reply<Listing>)
    modifies cache
    ensures Lookup(old(cache.cache), AdminKey(callerId), now).Some? ==>
              reply == Ok(Lookup(old(cache.cache), AdminKey(callerId), now).value) && cache.cache == old(cache.cache)
    ensures Lookup(old(cache.cache), AdminKey(callerId), now).None? ==>
              var mine := AdminProjects(db.projects, callerId);
              && (reply.Error? <==> exists k :: 0 <= k < |mine| && TeamById(db.teams, mine[k].teamId).None?)
              && (reply.Error? ==> reply == Error(500, "Failed to fetch projects") &&
                                   cache.cache == AfterLookup(old(cache.cache), AdminKey(callerId), now))
              && (reply.Ok? ==> reply.value.AdminListing? && |reply.value.admin| == |mine| &&
                                (forall k :: 0 <= k < |mine| ==>
                                   && TeamById(db.teams, mine[k].teamId).Some?
                                   && reply.value.admin[k] == AdminView(mine[k], TeamById(db.teams, mine[k].teamId).value, db.users)) &&
                                cache.cache == old(cache.cache)[AdminKey(callerId) := Entry(reply.value, now + 300000)])
  {
    var key := AdminKey(callerId);
    var hit := cache.Get(key, now);
    if hit.Some? {
      return Ok(hit.value);
    }
    var mine := AdminProjects(db.projects, callerId);
    var formatted := FormatAdminProjects(mine, db.teams, db.users);
    if formatted.None? {
      return Error(500, "Failed to fetch projects");
    }
    cache.Set(key, AdminListing(formatted.value), now, 300);
    return Ok(AdminListing(formatted.value));
  }

  /** `getProjectsForTeam`: an empty listing, without touching the cache,
      for a user without a team; otherwise the cached team listing when there
      is one, else the team's projects, cached for 300 seconds. */
  method GetProjectsForTeam(db: Db, cache: SimpleCache<Listing>, userTeamId: Option<Id>, now: int)
    returns (listing: Listing)
    modifies cache
    ensures !Truthy(userTeamId) ==> listing == TeamListing([]) && cache.cache == old(cache.cache)
    ensures Truthy(userTeamId) && Lookup(old(cache.cache), TeamKey(userTeamId.value), now).Some? ==>
              listing == Lookup(old(cache.cache), TeamKey(userTeamId.value), now).value &&
              cache.cache == old(cache.cache)
    ensures Truthy(userTeamId) && Lookup(old(cache.cache), TeamKey(userTeamId.value), now).None? ==>
              && listing == TeamListing(Filter(db.projects, (p: Project) => p.teamId == userTeamId.value))
              && cache.cache == old(cache.cache)[TeamKey(userTeamId.value) := Entry(listing, now + 300000)]
  {
    if !Truthy(userTeamId) {
      return TeamListing([]);
    }
    var key := TeamKey(userTeamId.value);
    var hit := cache.Get(key, now);
    if hit.Some? {
      return hit.value;
    }
    listing := TeamListing(Filter(db.projects, (p: Project) => p.teamId == userTeamId.value));
    cache.Set(key, listing, now, 300);
  }

  /** `createProject`: 400 for a missing or blank name before the team is
      looked up, 404 for an unknown context team; otherwise a project with the
      trimmed name, the context team, the caller as creator and the team's
      adminId. The schema requires an adminId, so a team without one makes
      the creation reject. After a creation only `projects_<team>` is deleted
      from the cache. */
  method CreateProject(db: Db, cache: SimpleCache<Listing>, teamId: Id, callerId: Id,
                       name: Option<string>, description: Option<string>, newId: Id)
    returns (reply: ProjectReply)
    requires FreshProjectId(db.projects, newId)
    modifies db`projects, cache
    ensures name.None? || Trim(name.value) == "" ==>
              reply == Refused(400, "Project name is required")
    ensures name.Some? && Trim(name.value) != "" && TeamById(old(db.teams), teamId).None? ==>
              reply == Refused(404, "Team not found")
    ensures !reply.Stored? ==> db.projects == old(db.projects) && cache.cache == old(cache.cache)
    ensures reply == Rejected ==> TeamById(db.teams, teamId).Some? && TeamById(db.teams, teamId).value.adminId.None?
    // the schema rejects exactly a valid request against a team without adminId
    ensures reply == Rejected <==>
              name.Some? && Trim(name.value) != "" && TeamById(db.teams, teamId).Some? &&
              TeamById(db.teams, teamId).value.adminId.None?
    // the project is stored exactly when every check passes
    ensures reply.Stored? <==>
              name.Some? && Trim(name.value) != "" && TeamById(db.teams, teamId).Some? &&
              TeamById(db.teams, teamId).value.adminId.Some?
    ensures reply.Stored? ==>
              && name.Some? && TeamById(db.teams, teamId).Some?
              && reply.project == Project(newId, Trim(name.value), description, teamId, Some(callerId),
                                          TeamById(db.teams, teamId).value.adminId)
              && reply.project.adminId.Some?
              && db.projects == old(db.projects) + [reply.project]
              && cache.cache == old(cache.cache) - {InvalidationKey(teamId)}
  {
    if name.None? || Trim(name.value) == "" {
      return Refused(400, "Project name is required");
    }
    var team := TeamById(db.teams, teamId);
    if team.None? {
      return Refused(404, "Team not found");
    }
    if team.value.adminId.None? {
      return Rejected;
    }
    var project := Project(newId, Trim(name.value), description, teamId, Some(callerId), team.value.adminId);
    db.projects := db.projects + [project];
    var _ := cache.Delete(InvalidationKey(teamId));
    return Stored(project);
  }

  /** The update `updateProject` applies: the trimmed name when the body's
      name is non-empty, the description when it is non-empty, nothing else. */
  function ApplyUpdate(p: Project, name: Option<string>, description: Option<string>): (r: Project)
    ensures r.id == p.id && r.teamId == p.teamId && r.createdBy == p.createdBy && r.adminId == p.adminId
    ensures r.name == (if Truthy(name) then Trim(name.value) else p.name)
    ensures r.description == (if Truthy(description) then description else p.description)
  {
    p.(name := if Truthy(name) then Trim(name.value) else p.name,
       description := if Truthy(description) then description else p.description)
  }

  /** `findOneAndUpdate({ _id, teamId })`: the first project with that id in that team. */
  function ScopedIndex(projects: seq<Project>, projectId: Id, teamId: Id): (r: Option<nat>)
    ensures r.Some? ==> r.value < |projects| && projects[r.value].id == projectId && projects[r.value].teamId == teamId
    ensures r.None? <==> forall i :: 0 <= i < |projects| ==> !(projects[i].id == projectId && projects[i].teamId == teamId)
  {
    FindIndex(projects, (p: Project) => p.id == projectId && p.teamId == teamId)
  }

  /** `updateProject`: a non-empty name that is blank once trimmed is refused
      with 400, while an empty name is simply not applied; a project with
      that id outside the context team is not found (404); otherwise the
      update is applied and `projects_<team>` is deleted from the cache. */
  method UpdateProject(db: Db, cache: SimpleCache<Listing>, teamId: Id, projectId: Id,
                       name: Option<string>, description: Option<string>)
    returns (reply: ProjectReply)
    modifies db`projects, cache
    ensures Truthy(name) && Trim(name.value) == "" ==> reply == Refused(400, "Project name cannot be empty")
    ensures !(Truthy(name) && Trim(name.value) == "") && ScopedIndex(old(db.projects), projectId, teamId).None? ==>
              reply == Refused(404, "Project not found")
    ensures !reply.Stored? ==> db.projects == old(db.projects) && cache.cache == old(cache.cache)
    // the update is applied exactly when both checks pass
    ensures reply.Stored? <==>
              !(Truthy(name) && Trim(name.value) == "") && ScopedIndex(old(db.projects), projectId, teamId).Some?
    ensures reply.Stored? ==>
              && ScopedIndex(old(db.projects), projectId, teamId).Some?
              && var i := ScopedIndex(old(db.projects), projectId, teamId).value;
                 && reply.project == ApplyUpdate(old(db.projects)[i], name, description)
                 && db.projects == old(db.projects)[i := reply.project]
                 && cache.cache == old(cache.cache) - {InvalidationKey(teamId)}
  {
    if Truthy(name) && Trim(name.value) == "" {
      return Refused(400, "Project name cannot be empty");
    }
    var index := ScopedIndex(db.projects, projectId, teamId);
    if index.None? {
      return Refused(404, "Project not found");
    }
    var updated := ApplyUpdate(db.projects[index.value], name, description);
    db.projects := db.projects[index.value := updated];
    var _ := cache.Delete(InvalidationKey(teamId));
    return Stored(updated);
  }

  /** An empty name is never refused and leaves the stored name as it was. */
  lemma EmptyNameSkipped(p: Project, description: Option<string>)
    ensures !(Truthy(Some("")) && Trim("") == "")
    ensures ApplyUpdate(p, Some(""), description).name == p.name
  {
  }

  /** `deleteProject`: removes the project with that id whichever team it
      belongs to, deletes `projects_<context team>` and reports success. */
  method DeleteProject(db: Db, cache: SimpleCache<Listing>, teamId: Id, projectId: Id) returns (message: string)
    modifies db`projects, cache
    ensures message == "Project deleted"
    ensures ProjectIndex(old(db.projects), projectId).None? ==> db.projects == old(db.projects)
    ensures ProjectIndex(old(db.projects), projectId).Some? ==>
              db.projects == RemoveAt(old(db.projects), ProjectIndex(old(db.projects), projectId).value)
    ensures cache.cache == old(cache.cache) - {InvalidationKey(teamId)}
  {
    var index := ProjectIndex(db.projects, projectId);
    if index.Some? {
      db.projects := RemoveAt(db.projects, index.value);
    }
    var _ := cache.Delete(InvalidationKey(teamId));
    return "Project deleted";
  }

  /** `getProjectById`: 404 for an unknown project; otherwise the project, its
      team, the users of its team and the first of them with the MANAGER role. */
  function GetProjectById(projects: seq<Project>, teams: seq<Team>, users: seq<User>, projectId: Id): Reply<ProjectDetails>
  {
    match ProjectIndex(projects, projectId)
    case None => Error(404, "Project not found")
    case Some(i) =>
      var members := Filter(users, InTeam(projects[i].teamId));
      Ok(ProjectDetails(projects[i], TeamById(teams, projects[i].teamId), Find(members, IsManager), members))
  }

  /** The manager `getProjectById` reports is the team's first MANAGER, the
      same user the admin listing shows, or null when the team has none. */
  lemma {:induction false} ProjectManagerIsTeamManager(projects: seq<Project>, teams: seq<Team>, users: seq<User>, projectId: Id)
    requires GetProjectById(projects, teams, users, projectId).Ok?
    ensures var d := GetProjectById(projects, teams, users, projectId).value;
            && d.project.id == projectId
            && d.team == TeamById(teams, d.project.teamId)
            && d.manager == TeamManager(users, d.project.teamId)
            && (forall k :: 0 <= k < |d.members| ==> d.members[k] in users && d.members[k].teamId == Some(d.project.teamId))
            && (forall j :: 0 <= j < |users| && users[j].teamId == Some(d.project.teamId) ==> users[j] in d.members)
  {
    var i := ProjectIndex(projects, projectId).value;
    FirstManagerOfTeam(users, projects[i].teamId);
  }

  /** The first MANAGER among a team's users is the team's manager. */
  lemma FirstManagerOfTeam(users: seq<User>, teamId: Id)
    ensures Find(Filter(users, InTeam(teamId)), IsManager) == TeamManager(users, teamId)
  {
    FindInFilter(users, InTeam(teamId), IsManager);
    FindAgrees(users, (x: User) => InTeam(teamId)(x) && IsManager(x), ManagerOf(teamId));
  }

  /** The ids of the projects a user has tasks assigned in. */
  function AssignedProjectIds(tasks: seq<Task>, userId: Id): set<Id>
  {
    set k | 0 <= k < |tasks| && tasks[k].assignedTo == Some(userId) :: tasks[k].projectId
  }

  /** The member listing's entry for a project whose team is known. */
  function MemberView(p: Project, team: Team): MemberProjectView
  {
    MemberProjectView(p.id, p.name, p.description, team.id, team.name, p.createdBy)
  }

  /** The member listing over projects: None (500) when some team is missing. */
  function MemberViews(projects: seq<Project>, teams: seq<Team>): (r: Option<seq<MemberProjectView>>)
    ensures r.None? <==> exists k :: 0 <= k < |projects| && TeamById(teams, projects[k].teamId).None?
    ensures r.Some? ==> |r.value| == |projects|
    ensures r.Some? ==> forall k :: 0 <= k < |projects| ==>
              r.value[k] == MemberView(projects[k], TeamById(teams, projects[k].teamId).value)
  {
    if projects == [] then Some([])
    else
      match TeamById(teams, projects[0].teamId)
      case None => None
      case Some(team) =>
        match MemberViews(projects[1..], teams)
        case None => None
        case Some(rest) => Some([MemberView(projects[0], team)] + rest)
  }

  /** `getMemberProjects`: the projects, in collection order, in which the
      user has an assigned task, each with its team's name; an empty listing
      when there is no such task, and 500 when one of the projects' teams is
      missing. */
  function GetMemberProjects(projects: seq<Project>, teams: seq<Team>, tasks: seq<Task>, userId: Id): Reply<seq<MemberProjectView>>
  {
    var ids := AssignedProjectIds(tasks, userId);
    if ids == {} then Ok([])
    else
      match MemberViews(Filter(projects, (p: Project) => p.id in ids), teams)
      case None => Error(500, "Failed to fetch member projects")
      case Some(views) => Ok(views)
  }

  /** The member has a task assigned in the project with that id. */
  predicate HasTaskIn(tasks: seq<Task>, userId: Id, projectId: Id)
  {
    exists j :: 0 <= j < |tasks| && tasks[j].assignedTo == Some(userId) && tasks[j].projectId == projectId
  }

  /** The id set the handler queries holds exactly the projects the member has tasks in. */
  lemma AssignedProjectIdsExact(tasks: seq<Task>, userId: Id, projectId: Id)
    ensures projectId in AssignedProjectIds(tasks, userId) <==> HasTaskIn(tasks, userId, projectId)
  {
    if HasTaskIn(tasks, userId, projectId) {
      var j :| 0 <= j < |tasks| && tasks[j].assignedTo == Some(userId) && tasks[j].projectId == projectId;
      assert tasks[j].projectId in AssignedProjectIds(tasks, userId);
    }
  }

  /** Every listed project is one the member has a task in. */
  lemma MemberProjectsSound(projects: seq<Project>, teams: seq<Team>, tasks: seq<Task>, userId: Id, k: nat)
    requires GetMemberProjects(projects, teams, tasks, userId).Ok?
    requires k < |GetMemberProjects(projects, teams, tasks, userId).value|
    ensures HasTaskIn(tasks, userId, GetMemberProjects(projects, teams, tasks, userId).value[k].id)
  {
    var ids := AssignedProjectIds(tasks, userId);
    var mine := Filter(projects, (p: Project) => p.id in ids);
    assert GetMemberProjects(projects, teams, tasks, userId).value[k].id == mine[k].id;
    AssignedProjectIdsExact(tasks, userId, mine[k].id);
  }

  /** Every project the member has a task in is listed, with its team. */
  lemma MemberProjectsComplete(projects: seq<Project>, teams: seq<Team>, tasks: seq<Task>, userId: Id, i: nat)
    requires GetMemberProjects(projects, teams, tasks, userId).Ok?
    requires i < |projects| && HasTaskIn(tasks, userId, projects[i].id)
    ensures TeamById(teams, projects[i].teamId).Some?
    ensures MemberView(projects[i], TeamById(teams, projects[i].teamId).value)
              in GetMemberProjects(projects, teams, tasks, userId).value
  {
    var ids := AssignedProjectIds(tasks, userId);
    AssignedProjectIdsExact(tasks, userId, projects[i].id);
    var mine := Filter(projects, (p: Project) => p.id in ids);
    var views := MemberViews(mine, teams);
    assert projects[i] in mine;
    var k :| 0 <= k < |mine| && mine[k] == projects[i];
    assert views.Some?;
    assert views.value[k] == MemberView(projects[i], TeamById(teams, projects[i].teamId).value);
  }

  /** `{ adminId: { $exists: false } }`. */
  predicate LacksAdminId(p: Project)
  {
    p.adminId.None?
  }

  /** How many projects lack an adminId, counted from the end. */
  function LackingCount(s: seq<Project>): nat
  {
    if s == [] then 0 else LackingCount(s[..|s| - 1]) + (if LacksAdminId(s[|s| - 1]) then 1 else 0)
  }

  /** The reported count is the length of `Project.find({ adminId: { $exists: false } })`. */
  lemma {:induction false} LackingCountIsFound(s: seq<Project>)
    ensures LackingCount(s) == |Filter(s, LacksAdminId)|
  {
    if s != [] {
      LackingCountIsFound(s[..|s| - 1]);
      assert s == s[..|s| - 1] + [s[|s| - 1]];
      CountAppend(s[..|s| - 1], s[|s| - 1], LacksAdminId);
      FilterLength(s, LacksAdminId);
      FilterLength(s[..|s| - 1], LacksAdminId);
    }
  }

  /** What the migration does to one project: one lacking an adminId whose
      team exists takes the team's adminId; every other project is kept. */
  function Migrated(p: Project, teams: seq<Team>): Project
  {
    if p.adminId.None? && TeamById(teams, p.teamId).Some? then p.(adminId := TeamById(teams, p.teamId).value.adminId)
    else p
  }

  /** `populateAdminIdForExistingProjects`: walks the projects lacking an
      adminId, setting each one's adminId from its team when the team exists,
      and reports how many lacked one, counting those whose team is missing. */
  method MigrateAdminIds(db: Db) returns (updated: nat, message: string)
    modifies db`projects
    ensures |db.projects| == |old(db.projects)|
    ensures forall k :: 0 <= k < |db.projects| ==> db.projects[k] == Migrated(old(db.projects)[k], db.teams)
    ensures updated == LackingCount(old(db.projects))
    ensures message == "Updated " + NatToString(updated) + " projects with adminId"
  {
    ghost var initial := db.projects;
    var teams := db.teams;
    updated := 0;
    for i := 0 to |db.projects|
      invariant |db.projects| == |initial|
      invariant forall k :: 0 <= k < i ==> db.projects[k] == Migrated(initial[k], teams)
      invariant forall k :: i <= k < |db.projects| ==> db.projects[k] == initial[k]
      invariant updated == LackingCount(initial[..i])
    {
      assert initial[..i + 1][..i] == initial[..i];
      var project := db.projects[i];
      if LacksAdminId(project) {
        updated := updated + 1;
        SetMigrated(db, i, teams);
      }
    }
    assert initial[..|initial|] == initial;
    message := "Updated " + NatToString(updated) + " projects with adminId";
  }

  /** `Project.updateOne({ _id }, { $set: { adminId } })` on the project at position `i`. */
  method SetMigrated(db: Db, i: nat, teams: seq<Team>)
    requires i < |db.projects|
    modifies db`projects
    ensures db.projects == old(db.projects)[i := Migrated(old(db.projects)[i], teams)]
  {
    db.projects := db.projects[i := Migrated(db.projects[i], teams)];
  }

  /** The migration touches nothing but adminId, and only where it was missing. */
  lemma MigratedChangesOnlyAdminId(p: Project, teams: seq<Team>)
    ensures Migrated(p, teams).(adminId := p.adminId) == p
    ensures p.adminId.Some? ==> Migrated(p, teams) == p
    ensures p.adminId.None? && TeamById(teams, p.teamId).None? ==> Migrated(p, teams) == p
  {
  }
}
