/** The MongoDB collections the handlers read and write, as in-memory
    sequences in natural (insertion) order, and the lookups on them. */
module Store {

  import opened Common

  /** A User document (models/User.model.js). `role` is absent on users the
      authentication middleware creates. */
  datatype User = User(
    id: Id,
    firebaseUid: Option<string>,
    email: string,
    name: string,
    role: Option<Role>,
    teamId: Option<Id>)

  /** An entry of the embedded `Team.members` list that team.controller.js
      maintains: a linked user (once one exists), the invited email, a role as
      sent by the client and the invitation status. */
  datatype Member = Member(user: Option<Id>, email: string, role: string, status: MappingStatus)

  /** A Team document: the schema fields (models/Team.model.js) together with
      the fields team.controller.js writes and reads. */
  datatype Team = Team(
    id: Id,
    name: string,
    description: Option<string>,
    adminId: Option<Id>,
    createdBy: Option<Id>,
    members: seq<Member>,
    projectIds: seq<Id>,
    isActive: bool)

  /** A Project document (models/Project.model.js). */
  datatype Project = Project(
    id: Id,
    name: string,
    description: Option<string>,
    teamId: Id,
    createdBy: Option<Id>,
    adminId: Option<Id>)

  /** A Task document (models/Task.model.js). */
  datatype Task = Task(
    id: Id,
    title: string,
    description: Option<string>,
    projectId: Id,
    assignedTo: Option<Id>,
    status: TaskStatus,
    priority: Priority)

  /** A UserRoleTeam document (models/UserRoleTeam.model.js). */
  datatype Mapping = Mapping(
    userId: Id,
    teamId: Id,
    role: Role,
    status: MappingStatus,
    invitedBy: Option<Id>)

  /** The database: one sequence per collection. */
  class Db {
    var users: seq<User>
    var teams: seq<Team>
    var projects: seq<Project>
    var tasks: seq<Task>
    var mappings: seq<Mapping>

    constructor ()
      ensures users == [] && teams == [] && projects == [] && tasks == [] && mappings == []
    {
      users, teams, projects, tasks, mappings := [], [], [], [], [];
    }
  }

  /** `String(team.adminId)`: an unset id renders as "undefined". */
  function IdString(id: Option<Id>): string
  {
    match id
    case Some(s) => s
    case None => "undefined"
  }

  /** `String(x)` of a nullable reference: null renders as "null". */
  function NullableIdString(id: Option<Id>): string
  {
    match id
    case Some(s) => s
    case None => "null"
  }

  /** No user of the collection has this id: what a freshly generated ObjectId guarantees. */
  predicate FreshUserId(users: seq<User>, id: Id)
  {
    forall i :: 0 <= i < |users| ==> users[i].id != id
  }

  predicate FreshTeamId(teams: seq<Team>, id: Id)
  {
    forall i :: 0 <= i < |teams| ==> teams[i].id != id
  }

  predicate FreshProjectId(projects: seq<Project>, id: Id)
  {
    forall i :: 0 <= i < |projects| ==> projects[i].id != id
  }

  predicate FreshTaskId(tasks: seq<Task>, id: Id)
  {
    forall i :: 0 <= i < |tasks| ==> tasks[i].id != id
  }

  /** `Team.findById(id)`. */
  function TeamById(teams: seq<Team>, id: Id): (r: Option<Team>)
    ensures r.Some? ==> r.value in teams && r.value.id == id
    ensures r.None? <==> forall i :: 0 <= i < |teams| ==> teams[i].id != id
  {
    Find(teams, (t: Team) => t.id == id)
  }

  /** Position of `Team.findById(id)` in the collection. */
  function TeamIndex(teams: seq<Team>, id: Id): (r: Option<nat>)
    ensures r.Some? ==> r.value < |teams| && teams[r.value].id == id
    ensures r.Some? ==> forall j :: 0 <= j < r.value ==> teams[j].id != id
    ensures r.None? <==> forall i :: 0 <= i < |teams| ==> teams[i].id != id
  {
    FindIndex(teams, (t: Team) => t.id == id)
  }

  /** `User.findById(id)` (also what `populate` resolves a reference to). */
  function UserById(users: seq<User>, id: Id): (r: Option<User>)
    ensures r.Some? ==> r.value in users && r.value.id == id
    ensures r.None? <==> forall i :: 0 <= i < |users| ==> users[i].id != id
  {
    Find(users, (u: User) => u.id == id)
  }

  /** Position of `Project.findById(id)`. */
  function ProjectIndex(projects: seq<Project>, id: Id): (r: Option<nat>)
    ensures r.Some? ==> r.value < |projects| && projects[r.value].id == id
    ensures r.Some? ==> forall j :: 0 <= j < r.value ==> projects[j].id != id
    ensures r.None? <==> forall i :: 0 <= i < |projects| ==> projects[i].id != id
  {
    FindIndex(projects, (p: Project) => p.id == id)
  }

  /** Position of `Task.findById(id)`. */
  function TaskIndex(tasks: seq<Task>, id: Id): (r: Option<nat>)
    ensures r.Some? ==> r.value < |tasks| && tasks[r.value].id == id
    ensures r.Some? ==> forall j :: 0 <= j < r.value ==> tasks[j].id != id
    ensures r.None? <==> forall i :: 0 <= i < |tasks| ==> tasks[i].id != id
  {
    FindIndex(tasks, (t: Task) => t.id == id)
  }

  /** The collection with the element at position `i` removed (`findByIdAndDelete`). */
  function RemoveAt<T>(s: seq<T>, i: nat): (r: seq<T>)
    requires i < |s|
    ensures |r| == |s| - 1
    ensures forall j :: 0 <= j < i ==> r[j] == s[j]
    ensures forall j :: i <= j < |r| ==> r[j] == s[j + 1]
  {
    s[..i] + s[i + 1..]
  }
}
