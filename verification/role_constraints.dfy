/** The single-holder check (src/middleware/roleConstraints.js): a team may
    have only one ACCEPTED mapping with role ADMIN and one with role MANAGER. */
module RoleConstraints {

  import opened Common
  import opened Store

  /** A mapping that holds `role` in `teamId` and has been accepted. */
  predicate AcceptedHolder(m: Mapping, teamId: Id, role: Role)
  {
    m.teamId == teamId && m.role == role && m.status == ACCEPTED
  }

  /** `UserRoleTeam.findOne({ teamId, role, status: "ACCEPTED" })` finds something. */
  predicate HasAcceptedHolder(mappings: seq<Mapping>, teamId: Id, role: Role)
  {
    exists i :: 0 <= i < |mappings| && AcceptedHolder(mappings[i], teamId, role)
  }

  /** The check: Proceed, or the 400 error the function throws. */
  function AssertSingleRolePerTeam(mappings: seq<Mapping>, teamId: Id, role: Role): Gate
  {
    if role != ADMIN && role != MANAGER then Proceed
    else if FindIndex(mappings, (m: Mapping) => AcceptedHolder(m, teamId, role)).Some? then
      Halt(400, "Team already has a " + RoleName(role))
    else Proceed
  }

  /** ADMIN and MANAGER fail with 400 exactly when an accepted holder of that
      role exists in that team; MEMBER always passes, whatever the table holds. */
  lemma SingleRoleDecision(mappings: seq<Mapping>, teamId: Id, role: Role)
    ensures role == MEMBER ==> AssertSingleRolePerTeam(mappings, teamId, role) == Proceed
    ensures role != MEMBER ==>
      (AssertSingleRolePerTeam(mappings, teamId, role).Halt? <==> HasAcceptedHolder(mappings, teamId, role))
    ensures AssertSingleRolePerTeam(mappings, teamId, role).Halt? ==>
      AssertSingleRolePerTeam(mappings, teamId, role) == Halt(400, "Team already has a " + RoleName(role))
  {
    var p := (m: Mapping) => AcceptedHolder(m, teamId, role);
    if role != MEMBER && HasAcceptedHolder(mappings, teamId, role) {
      var i :| 0 <= i < |mappings| && AcceptedHolder(mappings[i], teamId, role);
      assert p(mappings[i]);
    }
  }

  /** Mappings that are only INVITED, or that belong to another team, never
      make the check fail: adding one changes nothing. */
  lemma IrrelevantMappingsIgnored(mappings: seq<Mapping>, extra: Mapping, teamId: Id, role: Role)
    requires extra.status == INVITED || extra.teamId != teamId
    ensures AssertSingleRolePerTeam(mappings + [extra], teamId, role)
         == AssertSingleRolePerTeam(mappings, teamId, role)
  {
    SingleRoleDecision(mappings, teamId, role);
    SingleRoleDecision(mappings + [extra], teamId, role);
    if HasAcceptedHolder(mappings + [extra], teamId, role) {
      var i :| 0 <= i < |mappings + [extra]| && AcceptedHolder((mappings + [extra])[i], teamId, role);
      assert i < |mappings| && (mappings + [extra])[i] == mappings[i];
    }
    if HasAcceptedHolder(mappings, teamId, role) {
      var i :| 0 <= i < |mappings| && AcceptedHolder(mappings[i], teamId, role);
      assert (mappings + [extra])[i] == mappings[i];
    }
  }
}
