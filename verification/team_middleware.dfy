/** The team-membership guard (src/middleware/team.middleware.js): the
    request proceeds exactly when a signed-in user has a (truthy) team id. */
module TeamMiddleware {

  import opened Common
  import opened RoleMiddleware
  import opened AuthMiddleware

  /** The guard for `req.user`. */
  function TeamGuard(user: Option<GuardUser>): Gate
  {
    if user.None? then Halt(401, "Unauthenticated")
    else if !Truthy(user.value.teamId) then Halt(403, "User does not belong to any team")
    else Proceed
  }

  /** The request proceeds exactly when a user with a truthy team id is
      present; no user is 401, no team 403. */
  lemma TeamGuardDecision(user: Option<GuardUser>)
    ensures TeamGuard(user) == Proceed <==> user.Some? && Truthy(user.value.teamId)
    ensures user.None? ==> TeamGuard(user) == Halt(401, "Unauthenticated")
    ensures user.Some? && !Truthy(user.value.teamId) ==>
              TeamGuard(user) == Halt(403, "User does not belong to any team")
  {
  }

  /** The guard does not look at the role. */
  lemma TeamGuardIgnoresRole(teamId: Option<string>, role: Option<Role>, role': Option<Role>)
    ensures TeamGuard(Some(GuardUser(role, teamId))) == TeamGuard(Some(GuardUser(role', teamId)))
  {
  }

  /** Behind the authentication middleware the guard refuses every request
      with 403: the user it set carries no team id. */
  lemma AuthenticatedUserHasNoTeam(u: ReqUser)
    ensures TeamGuard(Some(AsGuardUser(u))) == Halt(403, "User does not belong to any team")
  {
  }
}
