/** The team-context middleware (src/middleware/teamContext.middleware.js):
    it decides which team a request is about and with which role the caller
    acts in it, or ends the request with 400, 401, 404, 403 or 500.

    The database lookup `Team.findById` is the parameter `lookup`. */
module TeamContextMiddleware {

  import opened Common
  import opened Store
  import AuthMiddleware

  /** `req.user` as this middleware reads it. */
  datatype CtxUser = CtxUser(id: ReqId, role: Option<Role>, teamId: Option<string>)

  /** The parts of the request the middleware reads. */
  datatype CtxRequest = CtxRequest(paramsTeamId: Option<string>, bodyTeamId: Option<string>, user: Option<CtxUser>)

  /** `req.teamContext`. */
  datatype TeamContext = TeamContext(teamId: string, role: Option<Role>)

  /** What `Team.findById(teamId)` produces: a team, null, or an exception. */
  datatype TeamLookup = Found(team: Team) | NotFound | LookupError

  /** `next()` with `req.teamContext` set, or a response. */
  datatype CtxOutcome = Next(ctx: TeamContext) | Reject(status: int, message: string)

  /** `req.params.teamId || req.body.teamId`, None when that is falsy. */
  function RequestedTeamId(req: CtxRequest): (r: Option<string>)
    ensures r.Some? ==> r.value != ""
    ensures Truthy(req.paramsTeamId) ==> r == req.paramsTeamId
    ensures !Truthy(req.paramsTeamId) ==> r == (if Truthy(req.bodyTeamId) then req.bodyTeamId else None)
  {
    if Truthy(req.paramsTeamId) then req.paramsTeamId
    else if Truthy(req.bodyTeamId) then req.bodyTeamId
    else None
  }

  /** The caller already belongs to the requested team: `req.user.teamId`
      is truthy and equals the requested id. */
  predicate InOwnTeam(user: CtxUser, teamId: string)
  {
    Truthy(user.teamId) && user.teamId.value == teamId
  }

  /** The middleware as a function of the request and the team lookup. */
  function ResolveTeamContext(req: CtxRequest, lookup: string -> TeamLookup): CtxOutcome
  {
    match RequestedTeamId(req)
    case None => Reject(400, "Team ID is required")
    case Some(teamId) =>
      match req.user
      case None => Reject(401, "Unauthenticated")
      case Some(user) =>
        if InOwnTeam(user, teamId) then Next(TeamContext(teamId, user.role))
        else
          match lookup(teamId)
          case LookupError => Reject(500, "Failed to resolve team context")
          case NotFound => Reject(404, "Team not found")
          case Found(team) =>
            if StrictEqualsId(IdString(team.adminId), user.id) then Next(TeamContext(teamId, Some(ADMIN)))
            else Reject(403, "Forbidden: not a member of this team")
  }

  /** Without a team id the answer is 400, whether or not anyone is signed in. */
  lemma MissingTeamIdIs400(req: CtxRequest, lookup: string -> TeamLookup)
    requires !Truthy(req.paramsTeamId) && !Truthy(req.bodyTeamId)
    ensures ResolveTeamContext(req, lookup) == Reject(400, "Team ID is required")
  {
  }

  /** With a team id but no `req.user` the answer is 401. */
  lemma NoUserIs401(req: CtxRequest, lookup: string -> TeamLookup)
    requires RequestedTeamId(req).Some? && req.user.None?
    ensures ResolveTeamContext(req, lookup) == Reject(401, "Unauthenticated")
  {
  }

  /** Fast path: a caller in the requested team gets their own role, and the
      team is never looked up (any two lookups give the same answer), even when
      the caller is also that team's admin. */
  lemma OwnTeamFastPath(req: CtxRequest, lookup: string -> TeamLookup, lookup': string -> TeamLookup)
    requires RequestedTeamId(req).Some? && req.user.Some?
    requires InOwnTeam(req.user.value, RequestedTeamId(req).value)
    ensures ResolveTeamContext(req, lookup) == Next(TeamContext(RequestedTeamId(req).value, req.user.value.role))
    ensures ResolveTeamContext(req, lookup) == ResolveTeamContext(req, lookup')
  {
  }

  /** Slow path, taken when the caller is not in the requested team: an
      unknown team is 404, a failed lookup 500, the team's admin gets ADMIN,
      and anybody else 403. */
  lemma OtherTeamSlowPath(req: CtxRequest, lookup: string -> TeamLookup)
    requires RequestedTeamId(req).Some? && req.user.Some?
    requires !InOwnTeam(req.user.value, RequestedTeamId(req).value)
    ensures var teamId := RequestedTeamId(req).value;
            var outcome := ResolveTeamContext(req, lookup);
            && (lookup(teamId).NotFound? ==> outcome == Reject(404, "Team not found"))
            && (lookup(teamId).LookupError? ==> outcome == Reject(500, "Failed to resolve team context"))
            && (lookup(teamId).Found? && StrictEqualsId(IdString(lookup(teamId).team.adminId), req.user.value.id) ==>
                  outcome == Next(TeamContext(teamId, Some(ADMIN))))
            && (lookup(teamId).Found? && !StrictEqualsId(IdString(lookup(teamId).team.adminId), req.user.value.id) ==>
                  outcome == Reject(403, "Forbidden: not a member of this team"))
  {
  }

  /** `next` runs exactly when a team id and a user are present and the user
      either is in that team or is its admin; the context then names the
      requested team, with the user's role or ADMIN. */
  lemma NextExactlyWhenEntitled(req: CtxRequest, lookup: string -> TeamLookup)
    ensures ResolveTeamContext(req, lookup).Next? <==>
      && RequestedTeamId(req).Some? && req.user.Some?
      && (|| InOwnTeam(req.user.value, RequestedTeamId(req).value)
          || (lookup(RequestedTeamId(req).value).Found?
              && StrictEqualsId(IdString(lookup(RequestedTeamId(req).value).team.adminId), req.user.value.id)))
    ensures ResolveTeamContext(req, lookup).Next? ==>
      && ResolveTeamContext(req, lookup).ctx.teamId == RequestedTeamId(req).value
      && ResolveTeamContext(req, lookup).ctx.role in {req.user.value.role, Some(ADMIN)}
  {
  }

  /** A caller whose id is an ObjectId is never recognised as the team's
      admin: only the fast path lets them through. */
  lemma ObjectIdCallerOnlyViaOwnTeam(req: CtxRequest, lookup: string -> TeamLookup)
    requires req.user.Some? && req.user.value.id.ObjectId?
    ensures ResolveTeamContext(req, lookup).Next? <==>
              RequestedTeamId(req).Some? && InOwnTeam(req.user.value, RequestedTeamId(req).value)
  {
  }

  /** `req.user` as the authentication middleware leaves it: the user's
      ObjectId, and neither a role nor a team id. */
  function FromAuth(u: AuthMiddleware.ReqUser): (c: CtxUser)
    ensures c.id == ObjectId(u.id) && c.role.None? && !Truthy(c.teamId)
  {
    CtxUser(ObjectId(u.id), None, None)
  }

  /** Behind the authentication middleware no request gets a team context:
      every outcome is a rejection, 403 for a team that exists. */
  lemma AuthenticatedUserGetsNoContext(req: CtxRequest, lookup: string -> TeamLookup, u: AuthMiddleware.ReqUser)
    requires req.user == Some(FromAuth(u))
    ensures ResolveTeamContext(req, lookup).Reject?
    ensures RequestedTeamId(req).Some? && lookup(RequestedTeamId(req).value).Found? ==>
              ResolveTeamContext(req, lookup) == Reject(403, "Forbidden: not a member of this team")
  {
  }

  /** Every rejection carries one of the five statuses of the middleware. */
  lemma RejectionStatuses(req: CtxRequest, lookup: string -> TeamLookup)
    ensures ResolveTeamContext(req, lookup).Reject? ==>
      ResolveTeamContext(req, lookup).status in {400, 401, 403, 404, 500}
  {
  }
}
