/** Team membership over the UserRoleTeam mapping table
    (src/controller/teamMember.controller.js): inviting a user into the
    context team, and listing the team's mappings.

    The identity provider's `createUser` is the parameter `createAccount`,
    which yields the new account's uid, or None where the call throws. */
module TeamMemberController {

  import opened Common
  import opened Text
  import opened Store
  import opened RoleConstraints

  /** The response of an invitation: 201 with the invited email and role, or
      an error status with its message. */
  datatype InviteResult = Added(email: string, role: Role) | Refused(status: int, message: string)

  /** One entry of the member listing; absent fields are those `populate`
      leaves undefined when the user no longer exists. */
  datatype MemberView = MemberView(id: Option<Id>, name: Option<string>, email: Option<string>,
                                   role: Role, status: MappingStatus)

  /** No (user, team) pair is mapped twice (the unique index of the table). */
  predicate UniquePairs(mappings: seq<Mapping>)
  {
    forall i, j :: 0 <= i < |mappings| && 0 <= j < |mappings| && i != j ==>
      mappings[i].userId != mappings[j].userId || mappings[i].teamId != mappings[j].teamId
  }

  /** No team has two accepted MANAGER mappings. */
  predicate SingleAcceptedManager(mappings: seq<Mapping>)
  {
    forall i, j ::
      (0 <= i < |mappings| && 0 <= j < |mappings| && i != j &&
       AcceptedHolder(mappings[i], mappings[i].teamId, MANAGER)) ==>
      !AcceptedHolder(mappings[j], mappings[i].teamId, MANAGER)
  }

  /** `UserRoleTeam.findOne({ userId, teamId })` finds something. */
  predicate PairMapped(mappings: seq<Mapping>, userId: Id, teamId: Id)
  {
    exists i :: 0 <= i < |mappings| && mappings[i].userId == userId && mappings[i].teamId == teamId
  }

  /** The role an invitation asks for: the body's role string, "MEMBER" when absent. */
  function RequestedRole(bodyRole: Option<string>): string
  {
    if bodyRole.Some? then bodyRole.value else "MEMBER"
  }

  /** The roles an invitation may grant: MEMBER and MANAGER, never ADMIN. */
  function InvitableRole(bodyRole: Option<string>): (r: Option<Role>)
    ensures r.Some? <==> RequestedRole(bodyRole) == "MEMBER" || RequestedRole(bodyRole) == "MANAGER"
    ensures r.Some? ==> r.value != ADMIN && RoleName(r.value) == RequestedRole(bodyRole)
    ensures bodyRole.None? ==> r == Some(MEMBER)
  {
    match ParseRole(RequestedRole(bodyRole))
    case Some(MEMBER) => Some(MEMBER)
    case Some(MANAGER) => Some(MANAGER)
    case _ => None
  }

  /** Appending a mapping for a pair that is not yet mapped keeps pairs unique. */
  lemma AppendKeepsUniquePairs(mappings: seq<Mapping>, m: Mapping)
    requires UniquePairs(mappings)
    requires !PairMapped(mappings, m.userId, m.teamId)
    ensures UniquePairs(mappings + [m])
  {
    var ms := mappings + [m];
    forall i, j | 0 <= i < |ms| && 0 <= j < |ms| && i != j
      ensures ms[i].userId != ms[j].userId || ms[i].teamId != ms[j].teamId
    {
      if i == |mappings| {
        assert ms[j] == mappings[j];
      } else if j == |mappings| {
        assert ms[i] == mappings[i];
      } else {
        assert ms[i] == mappings[i] && ms[j] == mappings[j];
      }
    }
  }

  /** Appending a mapping that is not an accepted MANAGER, or one for a team
      without an accepted MANAGER, keeps a single accepted manager per team. */
  lemma AppendKeepsSingleManager(mappings: seq<Mapping>, m: Mapping)
    requires SingleAcceptedManager(mappings)
    requires AcceptedHolder(m, m.teamId, MANAGER) ==> !HasAcceptedHolder(mappings, m.teamId, MANAGER)
    ensures SingleAcceptedManager(mappings + [m])
  {
    var ms := mappings + [m];
    forall i, j | 0 <= i < |ms| && 0 <= j < |ms| && i != j && AcceptedHolder(ms[i], ms[i].teamId, MANAGER)
      ensures !AcceptedHolder(ms[j], ms[i].teamId, MANAGER)
    {
      if i == |mappings| {
        assert ms[j] == mappings[j];
      } else if j == |mappings| {
        assert ms[i] == mappings[i];
      } else {
        assert ms[i] == mappings[i] && ms[j] == mappings[j];
      }
    }
  }

  /** The test of `User.findOne({ email })`: the exact stored email. */
  function WithEmail(email: string): User -> bool
  {
    (u: User) => u.email == email
  }

  /** The checks an invitation passes before any user is looked up: an
      invitable role, and no accepted MANAGER already when MANAGER is asked. */
  predicate Admissible(mappings: seq<Mapping>, teamId: Id, bodyRole: Option<string>)
  {
    InvitableRole(bodyRole).Some? &&
    !(InvitableRole(bodyRole) == Some(MANAGER) && HasAcceptedHolder(mappings, teamId, MANAGER))
  }

  /** The invitee is known: a user with the email exists, or the identity
      provider creates the account. */
  predicate Resolvable(users: seq<User>, email: string, createAccount: string -> Option<string>)
  {
    FindIndex(users, WithEmail(email)).Some? || createAccount(email).Some?
  }

  /** The user an invitation maps: the first user with the email, otherwise
      the user created for it. */
  function InviteeId(users: seq<User>, email: string, newUserId: Id): (r: Id)
    ensures r == newUserId || exists i :: 0 <= i < |users| && users[i].id == r && users[i].email == email
  {
    match FindIndex(users, WithEmail(email))
    case Some(i) => users[i].id
    case None => newUserId
  }

  /** `inviteToTeam`: validates the role, enforces a single accepted MANAGER,
      finds or creates the user by exact email, refuses a pair already mapped,
      and records an ACCEPTED mapping invited by the caller. */
  method InviteToTeam(db: Db, callerId: Id, teamId: Id, email: string, bodyRole: Option<string>,
                      createAccount: string -> Option<string>, newUserId: Id)
    returns (result: InviteResult)
    requires FreshUserId(db.users, newUserId)
    requires forall i :: 0 <= i < |db.mappings| ==> db.mappings[i].userId != newUserId
    modifies db`users, db`mappings
    // a role other than MEMBER or MANAGER is refused before anything is written
    ensures InvitableRole(bodyRole).None? ==>
              result == Refused(400, "Invalid role") && unchanged(db)
    // a second accepted MANAGER is refused before anything is written
    ensures InvitableRole(bodyRole) == Some(MANAGER) && HasAcceptedHolder(old(db.mappings), teamId, MANAGER) ==>
              result == Refused(400, "Team already has a MANAGER") && unchanged(db)
    // an unknown email whose account cannot be created: 500, nothing written
    ensures Admissible(old(db.mappings), teamId, bodyRole) && !Resolvable(old(db.users), email, createAccount) ==>
              result == Refused(500, "Failed to invite user") && unchanged(db)
    // otherwise an unknown email gets a MEMBER user named after it, and the
    // invitee's pair is either refused as mapped or mapped ACCEPTED
    ensures Admissible(old(db.mappings), teamId, bodyRole) && Resolvable(old(db.users), email, createAccount) ==>
              var userId := InviteeId(old(db.users), email, newUserId);
              && db.users == (if FindIndex(old(db.users), WithEmail(email)).Some? then old(db.users)
                              else old(db.users) + [User(newUserId, createAccount(email), email, FirstField(email, '@'), Some(MEMBER), None)])
              && (PairMapped(old(db.mappings), userId, teamId) ==>
                    result == Refused(400, "User already part of this team") && db.mappings == old(db.mappings))
              && (!PairMapped(old(db.mappings), userId, teamId) ==>
                    && result == Added(email, InvitableRole(bodyRole).value)
                    && db.mappings == old(db.mappings) + [Mapping(userId, teamId, InvitableRole(bodyRole).value, ACCEPTED, Some(callerId))])
    // the invitation succeeds exactly when every check passes
    ensures result.Added? <==>
              Admissible(old(db.mappings), teamId, bodyRole) && Resolvable(old(db.users), email, createAccount) &&
              !PairMapped(old(db.mappings), InviteeId(old(db.users), email, newUserId), teamId)
    ensures result.Added? <==> db.mappings != old(db.mappings)
    ensures result.Added? ==>
              exists i :: 0 <= i < |db.users| && db.users[i].id == db.mappings[|db.mappings| - 1].userId && db.users[i].email == email
    ensures result.Refused? ==> result.status in {400, 500}
    // the table's invariants are kept
    ensures UniquePairs(old(db.mappings)) ==> UniquePairs(db.mappings)
    ensures SingleAcceptedManager(old(db.mappings)) ==> SingleAcceptedManager(db.mappings)
  {
    var role := InvitableRole(bodyRole);
    if role.None? {
      return Refused(400, "Invalid role");
    }
    if role.value == MANAGER {
      var holder := FindIndex(db.mappings, (m: Mapping) => AcceptedHolder(m, teamId, MANAGER));
      if holder.Some? {
        return Refused(400, "Team already has a MANAGER");
      }
      assert !HasAcceptedHolder(db.mappings, teamId, MANAGER);
    }
    var found := FindIndex(db.users, WithEmail(email));
    var userId: Id;
    if found.None? {
      var uid := createAccount(email);
      if uid.None? {
        return Refused(500, "Failed to invite user");
      }
      db.users := db.users + [User(newUserId, uid, email, FirstField(email, '@'), Some(MEMBER), None)];
      userId := newUserId;
      assert db.users[|db.users| - 1].id == userId;
    } else {
      userId := db.users[found.value].id;
    }
    assert userId == InviteeId(old(db.users), email, newUserId);
    assert exists i :: 0 <= i < |db.users| && db.users[i].id == userId && db.users[i].email == email;
    var existing := FindIndex(db.mappings, (m: Mapping) => m.userId == userId && m.teamId == teamId);
    if existing.Some? {
      return Refused(400, "User already part of this team");
    }
    var mapping := Mapping(userId, teamId, role.value, ACCEPTED, Some(callerId));
    if UniquePairs(db.mappings) {
      AppendKeepsUniquePairs(db.mappings, mapping);
    }
    if SingleAcceptedManager(db.mappings) {
      AppendKeepsSingleManager(db.mappings, mapping);
    }
    db.mappings := db.mappings + [mapping];
    return Added(email, role.value);
  }

  /** The listing entry of one mapping, with its user populated. */
  function View(m: Mapping, users: seq<User>): MemberView
  {
    match UserById(users, m.userId)
    case Some(u) => MemberView(Some(u.id), Some(u.name), Some(u.email), m.role, m.status)
    case None => MemberView(None, None, None, m.role, m.status)
  }

  /** The test of `UserRoleTeam.find({ teamId })`. */
  function OfTeam(teamId: Id): Mapping -> bool
  {
    (m: Mapping) => m.teamId == teamId
  }

  /** `getTeamMembers`: the team's mappings, in table order, each as its
      listing entry. */
  function GetTeamMembers(mappings: seq<Mapping>, users: seq<User>, teamId: Id): (r: seq<MemberView>)
    ensures |r| == |Filter(mappings, OfTeam(teamId))|
    ensures forall k :: 0 <= k < |r| ==> r[k] == View(Filter(mappings, OfTeam(teamId))[k], users)
  {
    if |mappings| == 0 then []
    else
      var rest := GetTeamMembers(mappings[1..], users, teamId);
      if mappings[0].teamId == teamId then [View(mappings[0], users)] + rest else rest
  }

  /** Each entry of the listing is the entry of a mapping of that team, so it
      carries that mapping's role and status. */
  lemma {:induction false} ListedMembersBelongToTeam(mappings: seq<Mapping>, users: seq<User>, teamId: Id, k: nat)
    requires k < |GetTeamMembers(mappings, users, teamId)|
    ensures exists i :: 0 <= i < |mappings| && mappings[i].teamId == teamId &&
              GetTeamMembers(mappings, users, teamId)[k] == View(mappings[i], users)
  {
    var r := GetTeamMembers(mappings, users, teamId);
    if mappings[0].teamId == teamId && k == 0 {
      assert r[0] == View(mappings[0], users);
    } else {
      var k' := if mappings[0].teamId == teamId then k - 1 else k;
      ListedMembersBelongToTeam(mappings[1..], users, teamId, k');
      var i :| 0 <= i < |mappings[1..]| && mappings[1..][i].teamId == teamId &&
               GetTeamMembers(mappings[1..], users, teamId)[k'] == View(mappings[1..][i], users);
      assert mappings[i + 1] == mappings[1..][i];
    }
  }

  /** Every mapping of the team appears in the listing. */
  lemma {:induction false} EveryTeamMappingListed(mappings: seq<Mapping>, users: seq<User>, teamId: Id, i: nat)
    requires i < |mappings| && mappings[i].teamId == teamId
    ensures View(mappings[i], users) in GetTeamMembers(mappings, users, teamId)
  {
    if i > 0 {
      EveryTeamMappingListed(mappings[1..], users, teamId, i - 1);
      assert mappings[1..][i - 1] == mappings[i];
    }
  }
}
