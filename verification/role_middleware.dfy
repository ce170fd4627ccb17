/** The global-role guard (src/middleware/role.middleware.js): the request
    proceeds exactly when a user is signed in and `req.user.role` is in the
    allow-list. */
module RoleMiddleware {

  import opened Common
  import opened AuthMiddleware

  /** `req.user` as the guards read it. */
  datatype GuardUser = GuardUser(role: Option<Role>, teamId: Option<string>)

  /** `req.user` as the authentication middleware leaves it, read by a guard:
      the object has no `role` and no `teamId` property. */
  function AsGuardUser(u: ReqUser): (g: GuardUser)
    ensures g.role.None? && !Truthy(g.teamId)
  {
    GuardUser(None, None)
  }

  /** The allow-list when a route gives none. */
  const DefaultRoles: seq<Role> := []

  /** The guard for an allow-list and `req.user`. */
  function RoleGuard(allowed: seq<Role>, user: Option<GuardUser>): Gate
  {
    if user.None? then Halt(401, "Unauthenticated")
    else if !(user.value.role.Some? && user.value.role.value in allowed) then
      Halt(403, "Forbidden: insufficient permissions")
    else Proceed
  }

  /** The request proceeds exactly when a user is present with an allowed role. */
  lemma RoleGuardDecision(allowed: seq<Role>, user: Option<GuardUser>)
    ensures RoleGuard(allowed, user) == Proceed <==>
              user.Some? && user.value.role.Some? && user.value.role.value in allowed
    ensures user.Some? && !(user.value.role.Some? && user.value.role.value in allowed) ==>
              RoleGuard(allowed, user) == Halt(403, "Forbidden: insufficient permissions")
  {
  }

  /** A missing user is 401 whatever the list: the 401 check comes first. */
  lemma UnauthenticatedFirst(allowed: seq<Role>, allowed': seq<Role>)
    ensures RoleGuard(allowed, None) == RoleGuard(allowed', None) == Halt(401, "Unauthenticated")
  {
  }

  /** The default empty list denies everyone. */
  lemma DefaultDeniesAll(user: Option<GuardUser>)
    ensures RoleGuard(DefaultRoles, user).Halt?
  {
  }

  /** Behind the authentication middleware the guard refuses every request
      with 403, whatever the allow-list: the user it set carries no role. */
  lemma AuthenticatedUserRefused(allowed: seq<Role>, u: ReqUser)
    ensures RoleGuard(allowed, Some(AsGuardUser(u))) == Halt(403, "Forbidden: insufficient permissions")
  {
  }
}
