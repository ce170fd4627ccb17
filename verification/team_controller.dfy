/** Teams with an embedded member list (src/controller/team.controller.js):
    listing and reading teams, listing a team's members, creating a team,
    inviting a member by email and changing a member's role. Callers with the
    global role "ADMIN" see and change everything; other callers only see
    teams they are a member of. */
module TeamController {

  import opened Common
  import opened Text
  import opened Store

  /** `req.user` as these handlers read it. */
  datatype TeamCaller = TeamCaller(id: Id, email: string, globalRole: Option<string>)

  /** One entry of the member listing. */
  datatype MemberEntry = MemberEntry(id: Option<Id>, name: Option<string>, email: Option<string>,
                                     role: string, status: MappingStatus)

  /** The member listing's response body. */
  datatype MemberListing = MemberListing(teamId: Id, name: string, members: seq<MemberEntry>)

  predicate IsAdmin(caller: TeamCaller)
  {
    caller.globalRole == Some("ADMIN")
  }

  /** What `populate("members.user")` makes of a member's reference: the user,
      or null when there is no reference or the user no longer exists. */
  function Populated(users: seq<User>, ref: Option<Id>): Option<User>
  {
    match ref
    case None => None
    case Some(id) => UserById(users, id)
  }

  /** The caller's id is linked from some member (the `members.user` query). */
  predicate LinkedMember(team: Team, userId: Id)
  {
    exists k :: 0 <= k < |team.members| && team.members[k].user == Some(userId)
  }

  /** The check of `getTeamById`: a populated member is the caller. */
  predicate PopulatedMember(team: Team, users: seq<User>, userId: Id)
  {
    exists k :: 0 <= k < |team.members| && Populated(users, team.members[k].user).Some? &&
                Populated(users, team.members[k].user).value.id == userId
  }

  /** The check of the member listing for one member: a populated member
      must be the caller; an unlinked one may match the caller's email,
      ignoring case, when both emails are non-empty. */
  predicate MatchesCaller(m: Member, users: seq<User>, caller: TeamCaller)
  {
    match Populated(users, m.user)
    case Some(u) => u.id == caller.id
    case None => m.email != "" && caller.email != "" && EqualsIgnoreCase(m.email, caller.email)
  }

  /** The membership check of the member listing. */
  predicate SomeMemberMatches(team: Team, users: seq<User>, caller: TeamCaller)
  {
    exists k :: 0 <= k < |team.members| && MatchesCaller(team.members[k], users, caller)
  }

  /** `getTeams`: the active teams, all of them for an admin, otherwise those
      linking the caller as a member. */
  function GetTeams(teams: seq<Team>, caller: TeamCaller): seq<Team>
  {
    Filter(teams, Visible(caller))
  }

  /** The test of `getTeams`: an active team the caller may see. */
  function Visible(caller: TeamCaller): Team -> bool
  {
    (t: Team) => t.isActive && (IsAdmin(caller) || LinkedMember(t, caller.id))
  }

  /** An admin gets every active team; anybody else exactly the active teams
      that link them as a member. */
  lemma GetTeamsScope(teams: seq<Team>, caller: TeamCaller)
    ensures forall k :: 0 <= k < |GetTeams(teams, caller)| ==>
              GetTeams(teams, caller)[k] in teams && GetTeams(teams, caller)[k].isActive
    ensures !IsAdmin(caller) ==> forall k :: 0 <= k < |GetTeams(teams, caller)| ==>
              LinkedMember(GetTeams(teams, caller)[k], caller.id)
    ensures forall i :: 0 <= i < |teams| && teams[i].isActive && (IsAdmin(caller) || LinkedMember(teams[i], caller.id)) ==>
              teams[i] in GetTeams(teams, caller)
  {
    var r := GetTeams(teams, caller);
    assert forall k :: 0 <= k < |r| ==> Visible(caller)(r[k]);
  }

  /** The listing keeps the collection's order: a team stored after the
      others is listed after them, when it is listed at all. */
  lemma GetTeamsInOrder(teams: seq<Team>, t: Team, caller: TeamCaller)
    ensures GetTeams(teams + [t], caller) ==
            GetTeams(teams, caller) + (if t.isActive && (IsAdmin(caller) || LinkedMember(t, caller.id)) then [t] else [])
  {
    FilterAppend(teams, t, Visible(caller));
  }

  /** `getTeamById`: 404 for an unknown team, 403 for a non-admin who is not a
      (populated) member, otherwise the team. */
  function GetTeamById(teams: seq<Team>, users: seq<User>, caller: TeamCaller, teamId: Id): Reply<Team>
  {
    match TeamById(teams, teamId)
    case None => Error(404, "Team not found")
    case Some(team) =>
      if !IsAdmin(caller) && !PopulatedMember(team, users, caller.id) then Error(403, "Access denied")
      else Ok(team)
  }

  /** A team is read exactly when it exists and the caller is an admin or a
      member linked to an existing user with the caller's id. */
  lemma GetTeamByIdAccess(teams: seq<Team>, users: seq<User>, caller: TeamCaller, teamId: Id)
    ensures GetTeamById(teams, users, caller, teamId).Ok? <==>
              TeamById(teams, teamId).Some? &&
              (IsAdmin(caller) || PopulatedMember(TeamById(teams, teamId).value, users, caller.id))
    ensures GetTeamById(teams, users, caller, teamId).Ok? ==>
              GetTeamById(teams, users, caller, teamId).value.id == teamId
  {
  }

  /** The listing entry of one member: its email is the stored one, else the
      linked user's. */
  function Entry(m: Member, users: seq<User>): MemberEntry
  {
    var u := Populated(users, m.user);
    MemberEntry(
      if u.Some? then Some(u.value.id) else None,
      if u.Some? then Some(u.value.name) else None,
      if m.email != "" then Some(m.email) else if u.Some? then Some(u.value.email) else None,
      m.role, m.status)
  }

  /** The members of a team, in order, as listing entries. */
  function Entries(members: seq<Member>, users: seq<User>): (r: seq<MemberEntry>)
    ensures |r| == |members|
    ensures forall k :: 0 <= k < |r| ==> r[k] == Entry(members[k], users)
  {
    if members == [] then [] else [Entry(members[0], users)] + Entries(members[1..], users)
  }

  /** `req.params.teamId || req.params.id`, None when both are falsy. */
  function ListedTeamId(paramsTeamId: Option<string>, paramsId: Option<string>): (r: Option<string>)
    ensures r.Some? ==> r.value != "" && (r == paramsTeamId || r == paramsId)
    ensures r.None? <==> !Truthy(paramsTeamId) && !Truthy(paramsId)
    ensures Truthy(paramsTeamId) ==> r == paramsTeamId
  {
    if Truthy(paramsTeamId) then paramsTeamId else if Truthy(paramsId) then paramsId else None
  }

  /** `getTeamMembers`: the team id comes from `teamId` or `id` in the path;
      400 without one, 404 for an unknown team, 403 for a non-admin whom no
      member matches, otherwise one entry per member. */
  function GetTeamMembers(teams: seq<Team>, users: seq<User>, caller: TeamCaller,
                          paramsTeamId: Option<string>, paramsId: Option<string>): Reply<MemberListing>
  {
    var teamId := ListedTeamId(paramsTeamId, paramsId);
    if teamId.None? then Error(400, "Team ID is required")
    else
      match TeamById(teams, teamId.value)
      case None => Error(404, "Team not found")
      case Some(team) =>
        if !IsAdmin(caller) && !SomeMemberMatches(team, users, caller) then
          Error(403, "Access denied")
        else Ok(MemberListing(team.id, team.name, Entries(team.members, users)))
  }

  /** The listing has one entry per member, in order, each with the member's
      role and status and its stored email, or else the linked user's email;
      non-admins are served only when some member matches them. */
  lemma GetTeamMembersListing(teams: seq<Team>, users: seq<User>, caller: TeamCaller,
                              paramsTeamId: Option<string>, paramsId: Option<string>)
    requires GetTeamMembers(teams, users, caller, paramsTeamId, paramsId).Ok?
    ensures var listing := GetTeamMembers(teams, users, caller, paramsTeamId, paramsId).value;
            var team := TeamById(teams, listing.teamId).value;
            && team in teams
            && (IsAdmin(caller) || SomeMemberMatches(team, users, caller))
            && |listing.members| == |team.members|
            && forall k :: 0 <= k < |team.members| ==>
                 && listing.members[k].role == team.members[k].role
                 && listing.members[k].status == team.members[k].status
                 && (team.members[k].email != "" ==> listing.members[k].email == Some(team.members[k].email))
  {
    var teamId := if Truthy(paramsTeamId) then paramsTeamId else paramsId;
    var team := TeamById(teams, teamId.value).value;
    var listing := GetTeamMembers(teams, users, caller, paramsTeamId, paramsId).value;
    assert listing == MemberListing(team.id, team.name, Entries(team.members, users));
    assert TeamById(teams, listing.teamId) == Some(team);
    forall k | 0 <= k < |team.members|
      ensures && listing.members[k].role == team.members[k].role
              && listing.members[k].status == team.members[k].status
              && (team.members[k].email != "" ==> listing.members[k].email == Some(team.members[k].email))
    {
      assert listing.members[k] == Entry(team.members[k], users);
    }
  }

  /** Every answer of the member listing: 400 without a team id, 404 for an
      unknown team, 403 for a non-admin whom no member matches, and the
      listing of the team's members exactly when none of these applies. */
  lemma GetTeamMembersAccess(teams: seq<Team>, users: seq<User>, caller: TeamCaller,
                             paramsTeamId: Option<string>, paramsId: Option<string>)
    ensures var teamId := ListedTeamId(paramsTeamId, paramsId);
            var reply := GetTeamMembers(teams, users, caller, paramsTeamId, paramsId);
            && (teamId.None? ==> reply == Error(400, "Team ID is required"))
            && (teamId.Some? && TeamById(teams, teamId.value).None? ==> reply == Error(404, "Team not found"))
            && (teamId.Some? && TeamById(teams, teamId.value).Some? && !IsAdmin(caller) &&
                !SomeMemberMatches(TeamById(teams, teamId.value).value, users, caller) ==>
                  reply == Error(403, "Access denied"))
            && (reply.Ok? <==>
                  teamId.Some? && TeamById(teams, teamId.value).Some? &&
                  (IsAdmin(caller) || SomeMemberMatches(TeamById(teams, teamId.value).value, users, caller)))
            && (reply.Ok? ==>
                  var team := TeamById(teams, teamId.value).value;
                  reply.value == MemberListing(team.id, team.name, Entries(team.members, users)))
  {
  }

  /** A non-admin whose email matches an unlinked member, ignoring case, is
      served the listing even though no member links their id. */
  lemma InvitedEmailMayList(teams: seq<Team>, users: seq<User>, caller: TeamCaller, teamId: Id, k: nat)
    requires Truthy(Some(teamId)) && TeamById(teams, teamId).Some?
    requires var team := TeamById(teams, teamId).value;
             k < |team.members| && Populated(users, team.members[k].user).None? &&
             team.members[k].email != "" && caller.email != "" &&
             ToLower(team.members[k].email) == ToLower(caller.email)
    ensures GetTeamMembers(teams, users, caller, Some(teamId), None).Ok?
  {
    var team := TeamById(teams, teamId).value;
    assert EqualsIgnoreCase(team.members[k].email, caller.email);
    assert MatchesCaller(team.members[k], users, caller);
    assert SomeMemberMatches(team, users, caller);
    assert GetTeamMembers(teams, users, caller, Some(teamId), None) ==
           Ok(MemberListing(team.id, team.name, Entries(team.members, users)));
  }

  /** The document `createTeam` builds: the trimmed name, the description
      when it is truthy, the caller as creator, no members, no projects,
      active, and no `adminId`. */
  function NewTeam(newId: Id, caller: TeamCaller, name: string, description: Option<string>): (t: Team)
    ensures t.adminId.None? && t.isActive && t.members == [] && t.projectIds == []
  {
    Team(newId, Trim(name), if Truthy(description) then description else None, None, Some(caller.id), [], [], true)
  }

  /** The Team schema's validation: `adminId` is required. */
  predicate TeamSchemaAccepts(t: Team)
  {
    t.adminId.Some?
  }

  /** `createTeam`: 403 for a non-admin (before the name is looked at), 400 for
      a missing or blank name; otherwise the new team is saved, or the save
      fails validation and the handler answers 500. */
  function CreateTeam(caller: TeamCaller, name: Option<string>, description: Option<string>, newId: Id): (reply: Reply<Team>)
    ensures !IsAdmin(caller) ==> reply == Error(403, "Only admins can create teams")
    ensures IsAdmin(caller) && (name.None? || Trim(name.value) == "") ==> reply == Error(400, "Team name is required")
    ensures reply.Ok? <==>
              IsAdmin(caller) && name.Some? && Trim(name.value) != "" &&
              TeamSchemaAccepts(NewTeam(newId, caller, name.value, description))
    ensures reply.Ok? ==> reply.value == NewTeam(newId, caller, name.value, description)
  {
    if !IsAdmin(caller) then Error(403, "Only admins can create teams")
    else if name.None? || Trim(name.value) == "" then Error(400, "Team name is required")
    else
      var team := NewTeam(newId, caller, name.value, description);
      if TeamSchemaAccepts(team) then Ok(team) else Error(500, "Failed to create team")
  }

  /** No team is ever created: the document lacks the required `adminId`, so
      every admin request with a name ends in 500 and nothing is stored. */
  lemma CreateTeamAlwaysFails(caller: TeamCaller, name: Option<string>, description: Option<string>, newId: Id)
    ensures IsAdmin(caller) && name.Some? && Trim(name.value) != "" ==>
              CreateTeam(caller, name, description, newId) == Error(500, "Failed to create team")
    ensures CreateTeam(caller, name, description, newId).Error?
  {
  }

  /** `role || "MEMBER"`: the requested role string, MEMBER when it is missing or empty. */
  function NewRole(role: Option<string>): string
  {
    if Truthy(role) then role.value else "MEMBER"
  }

  /** The duplicate test of an invitation: the member's stored email is the
      lowercased invitee email, or its linked id equals the raw email. */
  predicate AlreadyInvited(m: Member, email: string)
  {
    m.email == ToLower(email) || m.user == Some(email)
  }

  /** `inviteTeamMember`: checks, in order, the caller is an admin (403), the
      email is non-blank (400), the team exists (404) and is not already
      invited (400); then appends a member with the lowercased email and the
      requested role (MEMBER by default), ACCEPTED and linked when a user with
      that email exists, INVITED otherwise. */
  method InviteTeamMember(db: Db, caller: TeamCaller, teamId: Id, email: Option<string>, role: Option<string>)
    returns (reply: Reply<Team>)
    modifies db`teams
    ensures !IsAdmin(caller) ==> reply == Error(403, "Only admins can invite members")
    ensures IsAdmin(caller) && (email.None? || Trim(email.value) == "") ==> reply == Error(400, "Email is required")
    ensures IsAdmin(caller) && email.Some? && Trim(email.value) != "" && TeamById(old(db.teams), teamId).None? ==>
              reply == Error(404, "Team not found")
    ensures IsAdmin(caller) && email.Some? && Trim(email.value) != "" && TeamById(old(db.teams), teamId).Some? &&
            (exists k :: 0 <= k < |TeamById(old(db.teams), teamId).value.members| &&
                         AlreadyInvited(TeamById(old(db.teams), teamId).value.members[k], email.value)) ==>
              reply == Error(400, "User already in team")
    ensures reply.Error? ==> db.teams == old(db.teams)
    // the invitation is recorded exactly when every check passes
    ensures reply.Ok? <==>
              && IsAdmin(caller) && email.Some? && Trim(email.value) != ""
              && TeamById(old(db.teams), teamId).Some?
              && forall k :: 0 <= k < |TeamById(old(db.teams), teamId).value.members| ==>
                   !AlreadyInvited(TeamById(old(db.teams), teamId).value.members[k], email.value)
    ensures reply.Ok? ==>
              && IsAdmin(caller) && email.Some? && Trim(email.value) != ""
              && TeamIndex(old(db.teams), teamId).Some?
              && var i := TeamIndex(old(db.teams), teamId).value;
                 var team := old(db.teams)[i];
                 var linked := FindIndex(old(db.users), (u: User) => u.email == ToLower(email.value));
                 var member := Member(if linked.Some? then Some(old(db.users)[linked.value].id) else None,
                                      ToLower(email.value),
                                      NewRole(role),
                                      if linked.Some? then ACCEPTED else INVITED);
                 && (forall k :: 0 <= k < |team.members| ==> !AlreadyInvited(team.members[k], email.value))
                 && reply.value == team.(members := team.members + [member])
                 && db.teams == old(db.teams)[i := reply.value]
  {
    if !IsAdmin(caller) {
      return Error(403, "Only admins can invite members");
    }
    if email.None? || Trim(email.value) == "" {
      return Error(400, "Email is required");
    }
    var index := TeamIndex(db.teams, teamId);
    if index.None? {
      return Error(404, "Team not found");
    }
    var i := index.value;
    var team := db.teams[i];
    var existing := FindIndex(team.members, (m: Member) => AlreadyInvited(m, email.value));
    if existing.Some? {
      return Error(400, "User already in team");
    }
    var lowered := ToLower(email.value);
    var linked := FindIndex(db.users, (u: User) => u.email == lowered);
    var member := Member(if linked.Some? then Some(db.users[linked.value].id) else None,
                         lowered,
                         NewRole(role),
                         if linked.Some? then ACCEPTED else INVITED);
    var updated := team.(members := team.members + [member]);
    db.teams := db.teams[i := updated];
    return Ok(updated);
  }

  /** The test of `team.members.find`: the member is linked to `memberId`. */
  function Links(memberId: Id): Member -> bool
  {
    (m: Member) => m.user == Some(memberId)
  }

  /** `changeTeamMemberRole`: 403 for a non-admin, 404 for an unknown team,
      404 unless some member links `memberId`; then that (first such) member
      gets the requested role (MEMBER by default) and status ACCEPTED, and no
      other member and nothing else changes. */
  method ChangeTeamMemberRole(db: Db, caller: TeamCaller, teamId: Id, memberId: Id, role: Option<string>)
    returns (reply: Reply<Team>)
    modifies db`teams
    ensures !IsAdmin(caller) ==> reply == Error(403, "Only admins can assign managers")
    ensures IsAdmin(caller) && TeamById(old(db.teams), teamId).None? ==> reply == Error(404, "Team not found")
    ensures IsAdmin(caller) && TeamById(old(db.teams), teamId).Some? &&
            !LinkedMember(TeamById(old(db.teams), teamId).value, memberId) ==>
              reply == Error(404, "Member not found in team")
    ensures reply.Error? ==> db.teams == old(db.teams)
    // the role is changed exactly when every check passes
    ensures reply.Ok? <==>
              IsAdmin(caller) && TeamById(old(db.teams), teamId).Some? &&
              LinkedMember(TeamById(old(db.teams), teamId).value, memberId)
    ensures reply.Ok? ==>
              && IsAdmin(caller) && TeamIndex(old(db.teams), teamId).Some?
              && var i := TeamIndex(old(db.teams), teamId).value;
                 var team := old(db.teams)[i];
                 && |db.teams| == |old(db.teams)|
                 && (forall j :: 0 <= j < |db.teams| && j != i ==> db.teams[j] == old(db.teams)[j])
                 && db.teams[i] == reply.value
                 && reply.value.(members := team.members) == team
                 && |reply.value.members| == |team.members|
                 // the first member linking memberId is the one changed
                 && FindIndex(team.members, Links(memberId)).Some?
                 && var k := FindIndex(team.members, Links(memberId)).value;
                    && team.members[k].user == Some(memberId)
                    && (forall j :: 0 <= j < k ==> team.members[j].user != Some(memberId))
                    && reply.value.members[k] == team.members[k].(role := NewRole(role), status := ACCEPTED)
                    && forall j :: 0 <= j < |team.members| && j != k ==> reply.value.members[j] == team.members[j]
  {
    if !IsAdmin(caller) {
      return Error(403, "Only admins can assign managers");
    }
    var index := TeamIndex(db.teams, teamId);
    if index.None? {
      return Error(404, "Team not found");
    }
    var i := index.value;
    var team := db.teams[i];
    var found := FindIndex(team.members, Links(memberId));
    if found.None? {
      return Error(404, "Member not found in team");
    }
    var k := found.value;
    var member := team.members[k].(role := NewRole(role), status := ACCEPTED);
    var updated := team.(members := team.members[k := member]);
    db.teams := db.teams[i := updated];
    return Ok(updated);
  }
}
