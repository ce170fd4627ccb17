/** The team-role guard (src/middleware/requireTeamRole.middleware.js): the
    request proceeds exactly when a team context is set and its role is in
    the allow-list the route gives. */
module RequireTeamRole {

  import opened Common
  import opened TeamContextMiddleware

  /** The allow-list when a route gives none. */
  const DefaultRoles: seq<Role> := []

  /** Route lists of src/routes/team.routes.js. */
  const TeamUpdateRoles: seq<Role> := [ADMIN, MANAGER]
  const TeamDeleteRoles: seq<Role> := [ADMIN]

  /** `allowedRoles.includes(req.teamContext.role)`; an unset role is in no list. */
  predicate Allows(allowed: seq<Role>, role: Option<Role>)
  {
    role.Some? && role.value in allowed
  }

  /** The guard for an allow-list and the request's `teamContext`. */
  function RequireTeamRole(allowed: seq<Role>, ctx: Option<TeamContext>): Gate
  {
    if ctx.None? then Halt(500, "Team context not initialized")
    else if !Allows(allowed, ctx.value.role) then Halt(403, "Forbidden: insufficient team permissions")
    else Proceed
  }

  /** The request proceeds exactly when a context exists and its role is
      allowed; a missing context is 500, a role outside the list 403. */
  lemma RequireTeamRoleDecision(allowed: seq<Role>, ctx: Option<TeamContext>)
    ensures RequireTeamRole(allowed, ctx) == Proceed <==> ctx.Some? && Allows(allowed, ctx.value.role)
    ensures ctx.None? ==> RequireTeamRole(allowed, ctx) == Halt(500, "Team context not initialized")
    ensures ctx.Some? && !Allows(allowed, ctx.value.role) ==>
              RequireTeamRole(allowed, ctx) == Halt(403, "Forbidden: insufficient team permissions")
  {
  }

  /** The default empty list denies every context. */
  lemma DefaultDeniesAll(ctx: Option<TeamContext>)
    ensures RequireTeamRole(DefaultRoles, ctx).Halt?
  {
  }

  /** Deleting a team admits only ADMIN; updating admits ADMIN and MANAGER. */
  lemma TeamRouteLists(ctx: TeamContext)
    ensures RequireTeamRole(TeamDeleteRoles, Some(ctx)) == Proceed <==> ctx.role == Some(ADMIN)
    ensures RequireTeamRole(TeamUpdateRoles, Some(ctx)) == Proceed <==>
              ctx.role == Some(ADMIN) || ctx.role == Some(MANAGER)
  {
  }
}
