/** The three dashboards (src/controller/dashboard.controller.js): counts and
    short listings computed from the collections. Nothing is written.

    Some counts filter on fields that no schema of the model has
    (`isArchived` and `manager` on projects, `globalRole` on users); they come
    in as the numbers the database answers. The completion rate is kept as
    the pair of counts it is computed from. */
module DashboardController {

  import opened Common
  import opened Store
  import opened TeamController

  /** A completion rate: 0 when there are no tasks, otherwise the share
      `completed / total` (rendered as a percentage with two decimals). */
  datatype Rate = NoTasks | Share(completed: nat, total: nat)

  /** An entry of the admin dashboard's team listing. */
  datatype TeamSummary = TeamSummary(id: Id, name: string, memberCount: nat, projectCount: nat)

  /** An entry of the manager dashboard's team listing. */
  datatype ManagedTeam = ManagedTeam(id: Id, name: string, memberCount: nat)

  datatype AdminDashboard = AdminDashboard(
    totalTeams: nat, totalProjects: nat, totalMembers: nat, totalAdmins: nat,
    totalTasks: nat, completedTasks: nat, taskCompletionRate: Rate, topTeams: seq<TeamSummary>)

  datatype ManagerDashboard = ManagerDashboard(
    totalAssignedTeams: nat, totalManagedProjects: nat, totalAssignedTasks: nat, completedTasks: nat,
    teamsManaged: seq<ManagedTeam>, topMember: Option<User>)

  /** A team of the member dashboard, with the one field selected (`name`). */
  datatype RecentTeam = RecentTeam(id: Id, name: string)

  datatype MemberDashboard = MemberDashboard(
    totalTeams: nat, totalTasks: nat, completedTasks: nat, pendingTasks: nat, inProgressTasks: nat,
    completionRate: Rate, recentTeams: seq<RecentTeam>)

  /** `total > 0 ? completed / total * 100 : 0`, without the arithmetic. */
  function CompletionRate(completed: nat, total: nat): (r: Rate)
    ensures r == NoTasks <==> total == 0
    ensures r.Share? ==> r.completed == completed && r.total == total
  {
    if total > 0 then Share(completed, total) else NoTasks
  }

  predicate IsActive(t: Team)
  {
    t.isActive
  }

  /** A task whose status string is the given one. */
  function HasStatus(name: string): Task -> bool
  {
    (t: Task) => StatusName(t.status) == name
  }

  function Summary(t: Team): TeamSummary
  {
    TeamSummary(t.id, t.name, |t.members|, |t.projectIds|)
  }

  function Summaries(teams: seq<Team>): (r: seq<TeamSummary>)
    ensures |r| == |teams|
    ensures forall k :: 0 <= k < |r| ==> r[k] == Summary(teams[k])
  {
    if teams == [] then [] else [Summary(teams[0])] + Summaries(teams[1..])
  }

  /** `getAdminDashboard`. */
  function GetAdminDashboard(teams: seq<Team>, tasks: seq<Task>,
                             totalProjects: nat, totalMembers: nat, totalAdmins: nat): AdminDashboard
  {
    var completed := Count(tasks, HasStatus("DONE"));
    AdminDashboard(Count(teams, IsActive), totalProjects, totalMembers, totalAdmins,
                   |tasks|, completed, CompletionRate(completed, |tasks|),
                   Summaries(Take(Filter(teams, IsActive), 5)))
  }

  /** The admin dashboard lists the first five active teams (all of them when
      fewer), in order, each with its member and project counts; completed tasks never
      exceed the total, and the rate is 0 exactly when there are no tasks. */
  lemma AdminDashboardFacts(teams: seq<Team>, tasks: seq<Task>, totalProjects: nat, totalMembers: nat, totalAdmins: nat)
    ensures var d := GetAdminDashboard(teams, tasks, totalProjects, totalMembers, totalAdmins);
            && |d.topTeams| == (if d.totalTeams < 5 then d.totalTeams else 5)
            && (forall k :: 0 <= k < |d.topTeams| ==>
                  var t := Filter(teams, IsActive)[k];
                  t.isActive && d.topTeams[k] == TeamSummary(t.id, t.name, |t.members|, |t.projectIds|))
            && d.completedTasks <= d.totalTasks
            && (d.taskCompletionRate == NoTasks <==> tasks == [])
  {
    FilterLength(teams, IsActive);
  }

  /** `Team.find({ "members.user": userId, "members.role": "MANAGER" })`: the
      two conditions on an array field may be met by different members. */
  predicate ManagerQueryMatches(t: Team, userId: Id)
  {
    && t.isActive
    && LinkedMember(t, userId)
    && exists k :: 0 <= k < |t.members| && t.members[k].role == "MANAGER"
  }

  /** The user ids the managed teams link, in any order (the `$in` list). */
  function ManagedMemberIds(teams: seq<Team>): set<Id>
  {
    set i, k | 0 <= i < |teams| && 0 <= k < |teams[i].members| && teams[i].members[k].user.Some? :: teams[i].members[k].user.value
  }

  function Managed(t: Team): ManagedTeam
  {
    ManagedTeam(t.id, t.name, |t.members|)
  }

  function ManagedTeams(teams: seq<Team>): (r: seq<ManagedTeam>)
    ensures |r| == |teams|
    ensures forall k :: 0 <= k < |r| ==> r[k] == Managed(teams[k])
  {
    if teams == [] then [] else [Managed(teams[0])] + ManagedTeams(teams[1..])
  }

  /** The test of the manager query. */
  function ManagesQuery(userId: Id): Team -> bool
  {
    (t: Team) => ManagerQueryMatches(t, userId)
  }

  /** The test of `Task.find({ assignedTo: userId })`. */
  function AssignedTo(userId: Id): Task -> bool
  {
    (t: Task) => t.assignedTo == Some(userId)
  }

  /** The test of `User.find({ _id: { $in: ids } })`. */
  function AmongIds(ids: set<Id>): User -> bool
  {
    (u: User) => u.id in ids
  }

  /** `getManagerDashboard`. */
  function GetManagerDashboard(teams: seq<Team>, users: seq<User>, tasks: seq<Task>, userId: Id,
                               totalManagedProjects: nat): ManagerDashboard
  {
    var managed := Filter(teams, ManagesQuery(userId));
    var assignedTasks := Filter(tasks, AssignedTo(userId));
    var memberIds := ManagedMemberIds(managed);
    ManagerDashboard(|managed|, totalManagedProjects, |assignedTasks|, Count(assignedTasks, HasStatus("DONE")),
                     ManagedTeams(managed), Find(users, AmongIds(memberIds)))
  }

  /** Completed tasks never exceed assigned ones; each managed team is listed
      with its member count; the top member is the first stored user linked
      from a managed team, and null only when no such user exists. */
  lemma ManagerDashboardFacts(teams: seq<Team>, users: seq<User>, tasks: seq<Task>, userId: Id, totalManagedProjects: nat)
    ensures var d := GetManagerDashboard(teams, users, tasks, userId, totalManagedProjects);
            var managed := Filter(teams, ManagesQuery(userId));
            && d.completedTasks <= d.totalAssignedTasks
            && |d.teamsManaged| == d.totalAssignedTeams
            && (forall k :: 0 <= k < |managed| ==>
                  ManagerQueryMatches(managed[k], userId) &&
                  d.teamsManaged[k] == ManagedTeam(managed[k].id, managed[k].name, |managed[k].members|))
            && (d.topMember.Some? ==>
                  exists i :: 0 <= i < |users| && d.topMember == Some(users[i]) &&
                              users[i].id in ManagedMemberIds(managed) &&
                              forall j :: 0 <= j < i ==> users[j].id !in ManagedMemberIds(managed))
            && (d.topMember.None? <==> forall i :: 0 <= i < |users| ==> users[i].id !in ManagedMemberIds(managed))
  {
    var managed := Filter(teams, ManagesQuery(userId));
    var ids := ManagedMemberIds(managed);
    var found := FindIndex(users, AmongIds(ids));
    if found.Some? {
      var i := found.value;
      assert forall j :: 0 <= j < i ==> !AmongIds(ids)(users[j]);
    }
  }

  /** A team in which the user is linked as a plain member counts as managed
      as soon as any other member has the MANAGER role. */
  lemma ManagerQueryAcceptsPlainMember(t: Team, userId: Id, i: nat, j: nat)
    requires t.isActive && i < |t.members| && j < |t.members|
    requires t.members[i].user == Some(userId) && t.members[i].role == "MEMBER"
    requires t.members[j].role == "MANAGER"
    ensures ManagerQueryMatches(t, userId)
  {
  }

  /** The test of `Team.find({ "members.user": userId, isActive: true })`. */
  function MemberOf(userId: Id): Team -> bool
  {
    (t: Team) => t.isActive && LinkedMember(t, userId)
  }

  function Recent(t: Team): RecentTeam
  {
    RecentTeam(t.id, t.name)
  }

  function RecentTeams(teams: seq<Team>): (r: seq<RecentTeam>)
    ensures |r| == |teams|
    ensures forall k :: 0 <= k < |r| ==> r[k] == Recent(teams[k])
  {
    if teams == [] then [] else [Recent(teams[0])] + RecentTeams(teams[1..])
  }

  /** `getMemberDashboard`. */
  function GetMemberDashboard(teams: seq<Team>, tasks: seq<Task>, userId: Id): MemberDashboard
  {
    var mine := Filter(teams, MemberOf(userId));
    var assignedTasks := Filter(tasks, AssignedTo(userId));
    var completed := Count(assignedTasks, HasStatus("DONE"));
    MemberDashboard(|mine|, |assignedTasks|, completed, Count(assignedTasks, HasStatus("PENDING")),
                    Count(assignedTasks, HasStatus("IN_PROGRESS")), CompletionRate(completed, |assignedTasks|),
                    RecentTeams(Take(mine, 3)))
  }

  /** Two tests that no element meets at once count at most the length together. */
  lemma {:induction false} DisjointCountsBounded<T>(s: seq<T>, p: T -> bool, q: T -> bool)
    requires forall i :: 0 <= i < |s| ==> !(p(s[i]) && q(s[i]))
    ensures Count(s, p) + Count(s, q) <= |s|
  {
    if |s| > 0 {
      DisjointCountsBounded(s[1..], p, q);
    }
  }

  /** No task of the status enumeration is "PENDING", so the pending count is 0. */
  lemma PendingIsZero(tasks: seq<Task>)
    ensures Count(tasks, HasStatus("PENDING")) == 0
  {
  }

  /** Each of the member dashboard's counts is at most the number of assigned
      tasks, and so is their sum; the recent teams are the first three of the
      user's active teams (all of them when fewer), in order, each as its id
      and name; the rate is 0 exactly when nothing is assigned. */
  lemma MemberDashboardFacts(teams: seq<Team>, tasks: seq<Task>, userId: Id)
    ensures var d := GetMemberDashboard(teams, tasks, userId);
            var mine := Filter(teams, MemberOf(userId));
            && d.pendingTasks == 0
            && d.completedTasks <= d.totalTasks && d.inProgressTasks <= d.totalTasks
            && d.completedTasks + d.pendingTasks + d.inProgressTasks <= d.totalTasks
            && |d.recentTeams| == (if |mine| < 3 then |mine| else 3)
            && (forall k :: 0 <= k < |d.recentTeams| ==>
                  mine[k].isActive && LinkedMember(mine[k], userId) &&
                  d.recentTeams[k] == RecentTeam(mine[k].id, mine[k].name))
            && (d.completionRate == NoTasks <==> d.totalTasks == 0)
  {
    var assignedTasks := Filter(tasks, AssignedTo(userId));
    PendingIsZero(assignedTasks);
    DisjointCountsBounded(assignedTasks, HasStatus("DONE"), HasStatus("IN_PROGRESS"));
  }
}
