/** Tasks of a project (src/controller/task.controller.js), scoped by the team
    context that teamContext.middleware.js attaches to the request.

    A request body is a `TaskBody`: each field is present or absent. The
    schema's validation (models/Task.model.js) decides whether a body can be
    stored: a title that is missing or blank once trimmed, a missing project,
    or a status or priority outside its enumeration makes `create`/`save`
    reject. The handlers do not catch that rejection, so no response is sent
    and nothing is written; the model reports it as `Rejected`. */
module TaskController {

  import opened Common
  import opened Text
  import opened Store
  import opened TeamContextMiddleware

  /** The fields of a request body the Task schema knows. */
  datatype TaskBody = TaskBody(
    title: Option<string>,
    description: Option<string>,
    projectId: Option<Id>,
    assignedTo: Option<Id>,
    status: Option<string>,
    priority: Option<string>)

  /** What an update handler does: the updated task, a response with an
      error status, or a validation rejection that nothing handles. */
  datatype TaskReply = Saved(task: Task) | Refused(status: int, message: string) | Rejected

  const EmptyBody := TaskBody(None, None, None, None, None, None)

  /** A body field that names a status or priority the schema accepts (or is absent). */
  predicate ValidEnums(body: TaskBody)
  {
    && (body.status.Some? ==> ParseStatus(body.status.value).Some?)
    && (body.priority.Some? ==> ParsePriority(body.priority.value).Some?)
  }

  /** A title the schema accepts once its setter has trimmed it. */
  predicate ValidTitle(title: string)
  {
    Trim(title) != ""
  }

  /** `getTasks`: 404 unless a project with the queried id belongs to the
      context team; otherwise that project's tasks, in collection order. */
  function GetTasks(projects: seq<Project>, tasks: seq<Task>, ctx: TeamContext, projectId: Option<Id>): Reply<seq<Task>>
  {
    if projectId.None? then Error(404, "Project not found")
    else
      match FindIndex(projects, (p: Project) => p.id == projectId.value && p.teamId == ctx.teamId)
      case None => Error(404, "Project not found")
      case Some(i) => Ok(Filter(tasks, (t: Task) => t.projectId == projects[i].id))
  }

  /** The listing is served exactly when the project belongs to the context
      team, and then holds every task of that project and no other task. */
  lemma GetTasksScoped(projects: seq<Project>, tasks: seq<Task>, ctx: TeamContext, projectId: Option<Id>)
    ensures GetTasks(projects, tasks, ctx, projectId).Ok? <==>
              projectId.Some? &&
              exists i :: 0 <= i < |projects| && projects[i].id == projectId.value && projects[i].teamId == ctx.teamId
    ensures GetTasks(projects, tasks, ctx, projectId).Error? ==>
              GetTasks(projects, tasks, ctx, projectId) == Error(404, "Project not found")
    ensures GetTasks(projects, tasks, ctx, projectId).Ok? ==>
              var listed := GetTasks(projects, tasks, ctx, projectId).value;
              && (forall k :: 0 <= k < |listed| ==> listed[k] in tasks && listed[k].projectId == projectId.value)
              && (forall j :: 0 <= j < |tasks| && tasks[j].projectId == projectId.value ==> tasks[j] in listed)
  {
    if projectId.Some? {
      var p := (q: Project) => q.id == projectId.value && q.teamId == ctx.teamId;
      var found := FindIndex(projects, p);
      if found.None? {
        assert forall i :: 0 <= i < |projects| ==> !p(projects[i]);
      }
    }
  }

  /** The task `Task.create(body)` builds, or None when validation rejects the
      body: title trimmed, description and assignee null by default, status
      TODO and priority MEDIUM by default. */
  function NewTask(body: TaskBody, id: Id): (r: Option<Task>)
    ensures r.Some? <==> body.title.Some? && ValidTitle(body.title.value) && body.projectId.Some? && ValidEnums(body)
    ensures r.Some? ==> && r.value.id == id
                        && r.value.title == Trim(body.title.value)
                        && r.value.projectId == body.projectId.value
                        && r.value.description == body.description
                        && r.value.assignedTo == body.assignedTo
                        && (body.status.None? ==> r.value.status == TODO)
                        && (body.status.Some? ==> StatusName(r.value.status) == body.status.value)
                        && (body.priority.None? ==> r.value.priority == MEDIUM)
                        && (body.priority.Some? ==> PriorityName(r.value.priority) == body.priority.value)
  {
    if body.title.None? || !ValidTitle(body.title.value) || body.projectId.None? || !ValidEnums(body) then None
    else
      Some(Task(id, Trim(body.title.value), body.description, body.projectId.value, body.assignedTo,
                if body.status.Some? then ParseStatus(body.status.value).value else TODO,
                if body.priority.Some? then ParsePriority(body.priority.value).value else MEDIUM))
  }

  /** `createTask`: stores the task built from the body, or nothing when
      validation rejects it. */
  method CreateTask(db: Db, body: TaskBody, newId: Id) returns (created: Option<Task>)
    requires FreshTaskId(db.tasks, newId)
    modifies db`tasks
    ensures created == NewTask(body, newId)
    ensures created.None? ==> db.tasks == old(db.tasks)
    ensures created.Some? ==> db.tasks == old(db.tasks) + [created.value]
  {
    created := NewTask(body, newId);
    if created.Some? {
      db.tasks := db.tasks + [created.value];
    }
  }

  /** `Object.assign(task, body)` followed by validation: every field present
      in the body overwrites the task's, the title through its trimming
      setter; None when the result fails validation. */
  function Merge(task: Task, body: TaskBody): (r: Option<Task>)
    ensures r.Some? <==> (body.title.Some? ==> ValidTitle(body.title.value)) && ValidEnums(body)
  {
    if (body.title.Some? && !ValidTitle(body.title.value)) || !ValidEnums(body) then None
    else
      Some(Task(task.id,
                if body.title.Some? then Trim(body.title.value) else task.title,
                if body.description.Some? then body.description else task.description,
                if body.projectId.Some? then body.projectId.value else task.projectId,
                if body.assignedTo.Some? then body.assignedTo else task.assignedTo,
                if body.status.Some? then ParseStatus(body.status.value).value else task.status,
                if body.priority.Some? then ParsePriority(body.priority.value).value else task.priority))
  }

  /** A field absent from the body keeps its value; a present one takes the
      body's value; the id never changes. */
  lemma MergeOverwritesPresentFields(task: Task, body: TaskBody)
    requires Merge(task, body).Some?
    ensures var t := Merge(task, body).value;
            && t.id == task.id
            && (if body.title.Some? then t.title == Trim(body.title.value) else t.title == task.title)
            && (if body.description.Some? then t.description == body.description else t.description == task.description)
            && (if body.projectId.Some? then t.projectId == body.projectId.value else t.projectId == task.projectId)
            && (if body.assignedTo.Some? then t.assignedTo == body.assignedTo else t.assignedTo == task.assignedTo)
            && (if body.status.Some? then StatusName(t.status) == body.status.value else t.status == task.status)
            && (if body.priority.Some? then PriorityName(t.priority) == body.priority.value else t.priority == task.priority)
  {
  }

  /** An empty body leaves the task as it is. */
  lemma MergeEmptyBody(task: Task)
    ensures Merge(task, EmptyBody) == Some(task)
  {
  }

  /** The assignee gate of `updateTask`: a MEMBER in the context team may only
      update the task assigned to them, compared strictly with `req.user.id`;
      an unassigned task renders as "null" and so matches no caller id that
      is not literally "null". */
  predicate MayUpdate(ctx: TeamContext, callerId: ReqId, task: Task)
  {
    !(ctx.role == Some(MEMBER) && !StrictEqualsId(NullableIdString(task.assignedTo), callerId))
  }

  /** `updateTask` on the collection: 404 for an unknown task, 403 when the
      gate refuses, otherwise the merge of the body into the task. */
  function UpdateOutcome(tasks: seq<Task>, ctx: TeamContext, callerId: ReqId, taskId: Id, body: TaskBody): TaskReply
  {
    match TaskIndex(tasks, taskId)
    case None => Refused(404, "Task not found")
    case Some(i) =>
      if !MayUpdate(ctx, callerId, tasks[i]) then Refused(403, "Forbidden")
      else
        match Merge(tasks[i], body)
        case None => Rejected
        case Some(t) => Saved(t)
  }

  /** ADMIN and MANAGER context roles, and a context without a role, pass the
      gate whoever the assignee is; a MEMBER passes exactly for their own task,
      and never when the caller's id is an ObjectId. */
  lemma UpdateGate(tasks: seq<Task>, ctx: TeamContext, callerId: ReqId, taskId: Id, body: TaskBody)
    requires TaskIndex(tasks, taskId).Some?
    ensures var task := tasks[TaskIndex(tasks, taskId).value];
            && (ctx.role != Some(MEMBER) ==> UpdateOutcome(tasks, ctx, callerId, taskId, body) != Refused(403, "Forbidden"))
            && (ctx.role == Some(MEMBER) ==>
                  (UpdateOutcome(tasks, ctx, callerId, taskId, body) == Refused(403, "Forbidden") <==>
                   !(callerId.IdText? &&
                     (task.assignedTo == Some(callerId.text) || (task.assignedTo.None? && callerId.text == "null")))))
            && (ctx.role == Some(MEMBER) && callerId.ObjectId? ==>
                  UpdateOutcome(tasks, ctx, callerId, taskId, body) == Refused(403, "Forbidden"))
  {
  }

  /** A caller whose `req.user.id` is the assignee's id as a string may move
      the task to any status, whatever the context role, and only its status
      changes. */
  lemma AssigneeMovesStatus(tasks: seq<Task>, ctx: TeamContext, callerId: Id, taskId: Id, s: TaskStatus)
    requires TaskIndex(tasks, taskId).Some? && tasks[TaskIndex(tasks, taskId).value].assignedTo == Some(callerId)
    ensures UpdateOutcome(tasks, ctx, IdText(callerId), taskId, EmptyBody.(status := Some(StatusName(s)))) ==
              Saved(tasks[TaskIndex(tasks, taskId).value].(status := s))
  {
    var body := EmptyBody.(status := Some(StatusName(s)));
    assert ParseStatus(StatusName(s)) == Some(s) by { match s case TODO => case IN_PROGRESS => case DONE => }
  }

  /** `updateTask`: the collection changes only when the task is saved, and
      then only at the task's position. */
  method UpdateTask(db: Db, ctx: TeamContext, callerId: ReqId, taskId: Id, body: TaskBody) returns (reply: TaskReply)
    modifies db`tasks
    ensures reply == UpdateOutcome(old(db.tasks), ctx, callerId, taskId, body)
    ensures !reply.Saved? ==> db.tasks == old(db.tasks)
    ensures reply.Saved? ==> db.tasks == old(db.tasks)[TaskIndex(old(db.tasks), taskId).value := reply.task]
  {
    var index := TaskIndex(db.tasks, taskId);
    if index.None? {
      return Refused(404, "Task not found");
    }
    var i := index.value;
    if !MayUpdate(ctx, callerId, db.tasks[i]) {
      return Refused(403, "Forbidden");
    }
    var merged := Merge(db.tasks[i], body);
    if merged.None? {
      return Rejected;
    }
    db.tasks := db.tasks[i := merged.value];
    return Saved(merged.value);
  }

  /** `deleteTask`: removes the task with that id if there is one, and
      reports success either way, with no role, ownership or team check. */
  method DeleteTask(db: Db, taskId: Id) returns (message: string)
    modifies db`tasks
    ensures message == "Task deleted"
    ensures TaskIndex(old(db.tasks), taskId).None? ==> db.tasks == old(db.tasks)
    ensures TaskIndex(old(db.tasks), taskId).Some? ==>
              db.tasks == RemoveAt(old(db.tasks), TaskIndex(old(db.tasks), taskId).value)
  {
    var index := TaskIndex(db.tasks, taskId);
    if index.Some? {
      db.tasks := RemoveAt(db.tasks, index.value);
    }
    return "Task deleted";
  }

  /** Removing the task at its id's position leaves a collection in which a
      task with that id remains only if the id was duplicated. */
  lemma {:induction false} DeleteRemovesOnlyThatTask(tasks: seq<Task>, taskId: Id)
    requires TaskIndex(tasks, taskId).Some?
    requires forall i, j :: 0 <= i < j < |tasks| ==> tasks[i].id != tasks[j].id
    ensures var rest := RemoveAt(tasks, TaskIndex(tasks, taskId).value);
            && TaskIndex(rest, taskId).None?
            && forall j :: 0 <= j < |tasks| && tasks[j].id != taskId ==> tasks[j] in rest
  {
    var i := TaskIndex(tasks, taskId).value;
    var rest := RemoveAt(tasks, i);
    forall j | 0 <= j < |rest|
      ensures rest[j].id != taskId
    {
      if j < i {
        assert rest[j] == tasks[j];
      } else {
        assert rest[j] == tasks[j + 1];
      }
    }
    forall j | 0 <= j < |tasks| && tasks[j].id != taskId
      ensures tasks[j] in rest
    {
      if j < i {
        assert rest[j] == tasks[j];
      } else {
        assert rest[j - 1] == tasks[j];
      }
    }
  }
}
