/** The task request handlers. Each mutating handler first runs its guard
    checks, which only read the stores (a pure function returning either the
    validated body or the reply that ends the request), and then performs its
    writes one after another, in the order the handler issues them. */
module TaskController {
  import opened Basics
  import opened ObjectIds
  import opened TaskModel
  import opened FieldValidations
  import opened References
  import opened Store

  const NotAuthorizedToCreate := "You are not authorized to create tasks."
  const NotAuthorizedToUpdate := "You are not authorized to update tasks."
  const TaskDataRequired := "Task data is required."
  const DuplicateTaskName := "Task with the same name already exists."
  const InvalidAssignees := "One or more assignees are invalid."
  const TaskNotFound := "Task not found."

  /** `toLowerCase` on the letters A to Z; every other character is kept.
      (No other character lower-cases to a single letter of "admin".) */
  function LowerChar(c: char): char
  {
    if 'A' <= c <= 'Z' then (c as int + 32) as char else c
  }

  /** Lower-casing leaves no capital letter, turns each capital into the
      small letter at the same place in the alphabet, and keeps every other
      character. */
  function ToLowerCase(s: string): (r: string)
    ensures |r| == |s|
    ensures forall i :: 0 <= i < |r| ==> !('A' <= r[i] <= 'Z')
    ensures forall i :: 0 <= i < |s| && !('A' <= s[i] <= 'Z') ==> r[i] == s[i]
    ensures forall i :: 0 <= i < |s| && 'A' <= s[i] <= 'Z' ==>
              'a' <= r[i] <= 'z' && r[i] as int - 'a' as int == s[i] as int - 'A' as int
  {
    seq(|s|, i requires 0 <= i < |s| => LowerChar(s[i]))
  }

  /** Lower-casing twice is lower-casing once. */
  lemma ToLowerCaseIdempotent(s: string)
    ensures ToLowerCase(ToLowerCase(s)) == ToLowerCase(s)
  {
  }

  /** `req.headers['role'].toLowerCase() === 'admin'`. */
  predicate IsAdminHeader(header: string)
  {
    ToLowerCase(header) == "admin"
  }

  /** The header passes exactly when it spells "admin" in any mix of cases. */
  lemma {:induction false} AdminHeaderSpellings(header: string)
    ensures IsAdminHeader(header) <==>
              |header| == 5 && forall i :: 0 <= i < 5 ==> header[i] == "admin"[i] || header[i] == "ADMIN"[i]
  {
    var lower := ToLowerCase(header);
    if |header| == 5 && forall i :: 0 <= i < 5 ==> header[i] == "admin"[i] || header[i] == "ADMIN"[i] {
      forall i | 0 <= i < 5 ensures lower[i] == "admin"[i] {
        assert header[i] == "admin"[i] || header[i] == "ADMIN"[i];
      }
    }
    if IsAdminHeader(header) {
      forall i | 0 <= i < 5 ensures header[i] == "admin"[i] || header[i] == "ADMIN"[i] {
        assert LowerChar(header[i]) == "admin"[i];
      }
    }
  }

  /** The request carries a role header that passes the admin check. */
  predicate AdminRequest(role: Option<string>)
  {
    role.Some? && IsAdminHeader(role.value)
  }

  /** `TaskModel.findOne({ task_name: name })` finds a task. */
  predicate NameTaken(tasks: Tasks, name: string)
  {
    exists t :: t in tasks && tasks[t].task_name == name
  }

  /** The assignee list passes `found.length === list.length`. */
  predicate AssigneesResolve(users: Users, ids: seq<UserId>)
  {
    CountFound(users, ids) == |ids|
  }

  /** The document `new TaskModel(validateData)` saves. */
  function StoredTask(v: TaskData): (t: Task)
    requires v.dueDate.Some? && v.assignee.Some?
    ensures t.task_name == v.task_name && t.task_description == v.task_description
    ensures t.status == v.status && t.priority == v.priority
    ensures t.assignee == v.assignee.value && t.creator == v.creator && t.dueDate == v.dueDate.value
  {
    NewTask(v.task_name, v.task_description, Some(v.status), v.assignee, Some(v.creator),
            v.dueDate.value, Some(v.priority))
  }

  /** The guard checks of `createTask`, in order. A missing role header makes
      `toLowerCase` throw, and a missing assignee list makes `.length` throw;
      both end in the catch-all 500. */
  function CreateTaskCheck(users: Users, tasks: Tasks, role: Option<string>, body: Option<TaskPayload>)
    : (r: Result<TaskData, Reply>)
    ensures role.None? ==> r == Err(InternalError)
    ensures role.Some? && !IsAdminHeader(role.value) ==> r == Err(Forbidden(NotAuthorizedToCreate))
    ensures AdminRequest(role) && body.None? ==> r == Err(BadRequest(TaskDataRequired))
    ensures AdminRequest(role) && body.Some? && ValidateCreateTask(body.value).Err? ==>
              r == Err(Invalid(ValidateCreateTask(body.value).error))
    ensures (&& AdminRequest(role) && body.Some? && ValidateCreateTask(body.value).Ok?
             && NameTaken(tasks, ValidateCreateTask(body.value).value.task_name)) ==>
              r == Err(BadRequest(DuplicateTaskName))
    ensures (&& AdminRequest(role) && body.Some? && ValidateCreateTask(body.value).Ok?
             && !NameTaken(tasks, ValidateCreateTask(body.value).value.task_name)
             && ValidateCreateTask(body.value).value.assignee == None) ==>
              r == Err(InternalError)
    ensures (&& AdminRequest(role) && body.Some? && ValidateCreateTask(body.value).Ok?
             && !NameTaken(tasks, ValidateCreateTask(body.value).value.task_name)
             && ValidateCreateTask(body.value).value.assignee.Some?
             && !(&& NoDuplicates(ValidateCreateTask(body.value).value.assignee.value)
                  && AllExist(users, ValidateCreateTask(body.value).value.assignee.value))) ==>
              r == Err(BadRequest(InvalidAssignees))
    ensures r.Ok? <==> && AdminRequest(role) && body.Some? && ValidateCreateTask(body.value).Ok?
                       && !NameTaken(tasks, ValidateCreateTask(body.value).value.task_name)
                       && ValidateCreateTask(body.value).value.assignee.Some?
                       && NoDuplicates(ValidateCreateTask(body.value).value.assignee.value)
                       && AllExist(users, ValidateCreateTask(body.value).value.assignee.value)
    ensures r.Ok? ==> && r.value == ValidateCreateTask(body.value).value
                      && r.value.dueDate.Some? && r.value.assignee.Some?
                      && r.value.task_name != "" && r.value.task_description != ""
  {
    if role.None? then Err(InternalError)
    else if !IsAdminHeader(role.value) then Err(Forbidden(NotAuthorizedToCreate))
    else if body.None? then Err(BadRequest(TaskDataRequired))
    else match ValidateCreateTask(body.value)
      case Err(errors) => Err(Invalid(errors))
      case Ok(v) =>
        if NameTaken(tasks, v.task_name) then Err(BadRequest(DuplicateTaskName))
        else if v.assignee.None? then Err(InternalError)
        else
          CountFoundMatches(users, v.assignee.value);
          if !AssigneesResolve(users, v.assignee.value) then Err(BadRequest(InvalidAssignees))
          else Ok(v)
  }

  /** `createTask`. On success it saves one new task under a fresh id and
      pushes that id onto the task list of each listed assignee; users not
      listed are unchanged. Every rejection writes nothing. */
  method CreateTask(db: Database, role: Option<string>, body: Option<TaskPayload>) returns (reply: Reply)
    requires db.Valid()
    modifies db
    ensures db.Valid()
    ensures var check := CreateTaskCheck(old(db.users), old(db.tasks), role, body);
      && (check.Err? ==> reply == check.error && db.users == old(db.users) && db.tasks == old(db.tasks))
      && (check.Ok? ==>
            var t := TaskId(old(db.nextTaskId));
            && reply == Created
            && t !in old(db.tasks)
            && db.tasks == old(db.tasks)[t := StoredTask(check.value)]
            && db.users == PushToEach(old(db.users), check.value.assignee.value, t))
    ensures Symmetric(old(db.users), old(db.tasks)) ==> Symmetric(db.users, db.tasks)
  {
    var check := CreateTaskCheck(db.users, db.tasks, role, body);
    if check.Err? {
      return check.error;
    }
    var v := check.value;
    ghost var users0, tasks0 := db.users, db.tasks;
    var t := db.NewTaskId();
    InsertKeepsNamesUnique(db.tasks, t, StoredTask(v));
    // taskPayload.save()
    db.tasks := db.tasks[t := StoredTask(v)];
    // User.updateMany({ _id: { $in: assignee } }, { $push: { tasks: t } })
    db.users := PushToEach(db.users, v.assignee.value, t);
    reply := Created;
    if Symmetric(users0, tasks0) {
      CreateTaskPreservesSymmetry(users0, tasks0, t, StoredTask(v));
    }
  }

  /** The schema default for priority (Low) is applied before the store's
      (Medium), so a task created without a priority is stored as Low and
      the store default never takes effect on this path. */
  lemma CreatedTaskPriority(users: Users, tasks: Tasks, role: Option<string>, body: Option<TaskPayload>)
    requires CreateTaskCheck(users, tasks, role, body).Ok?
    ensures body.value.priority.None? ==> StoredTask(CreateTaskCheck(users, tasks, role, body).value).priority == Low
    ensures body.value.status.None? ==> StoredTask(CreateTaskCheck(users, tasks, role, body).value).status == Pending
    ensures StoredTask(CreateTaskCheck(users, tasks, role, body).value).priority != StoreDefaultPriority
            || body.value.priority == Some("Medium")
  {
  }

  /** The guard checks of `updateTask`, in order. The name check runs only
      when the name changes (the validated name is never empty, so the
      source's truthiness test always passes), and the assignee check only
      when a list is sent. */
  function UpdateTaskCheck(users: Users, tasks: Tasks, role: Option<string>, id: TaskId, body: TaskPayload)
    : (r: Result<TaskData, Reply>)
    ensures role.None? ==> r == Err(InternalError)
    ensures role.Some? && !IsAdminHeader(role.value) ==> r == Err(Forbidden(NotAuthorizedToUpdate))
    ensures AdminRequest(role) && id !in tasks ==> r == Err(NotFound(TaskNotFound))
    ensures AdminRequest(role) && id in tasks && ValidateUpdateTask(body).Err? ==>
              r == Err(Invalid(ValidateUpdateTask(body).error))
    ensures (&& AdminRequest(role) && id in tasks && ValidateUpdateTask(body).Ok?
             && ValidateUpdateTask(body).value.task_name != tasks[id].task_name
             && NameTaken(tasks, ValidateUpdateTask(body).value.task_name)) ==>
              r == Err(BadRequest(DuplicateTaskName))
    ensures (&& AdminRequest(role) && id in tasks && ValidateUpdateTask(body).Ok?
             && (ValidateUpdateTask(body).value.task_name != tasks[id].task_name ==>
                   !NameTaken(tasks, ValidateUpdateTask(body).value.task_name))
             && ValidateUpdateTask(body).value.assignee.Some?
             && !(&& NoDuplicates(ValidateUpdateTask(body).value.assignee.value)
                  && AllExist(users, ValidateUpdateTask(body).value.assignee.value))) ==>
              r == Err(BadRequest(InvalidAssignees))
    ensures r.Ok? <==> && AdminRequest(role) && id in tasks && ValidateUpdateTask(body).Ok?
                       && (ValidateUpdateTask(body).value.task_name != tasks[id].task_name ==>
                             !NameTaken(tasks, ValidateUpdateTask(body).value.task_name))
                       && (ValidateUpdateTask(body).value.assignee.Some? ==>
                             && NoDuplicates(ValidateUpdateTask(body).value.assignee.value)
                             && AllExist(users, ValidateUpdateTask(body).value.assignee.value))
    ensures r.Ok? ==> && id in tasks && r.value == ValidateUpdateTask(body).value
                      && r.value.task_name != "" && r.value.task_description != ""
    ensures (&& AdminRequest(role) && id in tasks && ValidateUpdateTask(body).Ok?
             && ValidateUpdateTask(body).value.task_name == tasks[id].task_name
             && ValidateUpdateTask(body).value.assignee.None?) ==>
              r.Ok?
  {
    if role.None? then Err(InternalError)
    else if !IsAdminHeader(role.value) then Err(Forbidden(NotAuthorizedToUpdate))
    else if id !in tasks then Err(NotFound(TaskNotFound))
    else match ValidateUpdateTask(body)
      case Err(errors) => Err(Invalid(errors))
      case Ok(v) =>
        if v.task_name != tasks[id].task_name && NameTaken(tasks, v.task_name) then
          Err(BadRequest(DuplicateTaskName))
        else
          CountFoundMatches(users, if v.assignee.Some? then v.assignee.value else []);
          if v.assignee.Some? && !AssigneesResolve(users, v.assignee.value) then
            Err(BadRequest(InvalidAssignees))
          else Ok(v)
  }

  /** `Object.assign(task, validateData)`: every field the validated body
      holds overwrites the stored one; `dueDate` and `assignee` are held only
      when sent, while `status` and `priority` always are (their defaults). */
  function MergeTask(stored: Task, v: TaskData): Task
  {
    stored.(
      task_name := v.task_name,
      task_description := v.task_description,
      status := v.status,
      priority := v.priority,
      creator := v.creator,
      dueDate := if v.dueDate.Some? then v.dueDate.value else stored.dueDate,
      assignee := if v.assignee.Some? then v.assignee.value else stored.assignee)
  }

  /** What an update does to the stored task: omitted `dueDate` and
      `assignee` are kept, but an omitted `status` or `priority` is reset to
      the schema default (Pending, Low), whatever was stored before. */
  lemma UpdateMergeEffect(stored: Task, body: TaskPayload)
    requires ValidateUpdateTask(body).Ok?
    ensures var merged := MergeTask(stored, ValidateUpdateTask(body).value);
      && Some(merged.task_name) == body.task_name
      && (body.dueDate.None? ==> merged.dueDate == stored.dueDate)
      && (body.dueDate.Some? ==> merged.dueDate == body.dueDate.value)
      && (body.assignee.None? ==> merged.assignee == stored.assignee)
      && (body.assignee.Some? ==> merged.assignee == body.assignee.value)
      && (body.status.None? ==> merged.status == Pending)
      && (body.priority.None? ==> merged.priority == Low)
      && Some(merged.creator) == body.creator
  {
  }

  /** `updateTask`. On success the merged task replaces the stored one; when
      an assignee list was sent, the task id is then pulled from every user
      outside the list and added (once) to every user in it. Without a list
      no user changes. Every rejection writes nothing. */
  method UpdateTask(db: Database, role: Option<string>, id: TaskId, body: TaskPayload) returns (reply: Reply)
    requires db.Valid()
    modifies db
    ensures db.Valid()
    ensures var check := UpdateTaskCheck(old(db.users), old(db.tasks), role, id, body);
      && (check.Err? ==> reply == check.error && db.users == old(db.users) && db.tasks == old(db.tasks))
      && (check.Ok? ==>
            && reply == Success
            && db.tasks == old(db.tasks)[id := MergeTask(old(db.tasks)[id], check.value)]
            && db.users == if check.value.assignee.Some?
                           then Reassign(old(db.users), check.value.assignee.value, id)
                           else old(db.users))
    ensures Symmetric(old(db.users), old(db.tasks)) ==> Symmetric(db.users, db.tasks)
  {
    var check := UpdateTaskCheck(db.users, db.tasks, role, id, body);
    if check.Err? {
      return check.error;
    }
    var v := check.value;
    ghost var users0, tasks0 := db.users, db.tasks;
    var merged := MergeTask(db.tasks[id], v);
    ReplaceKeepsNamesUnique(db.tasks, id, merged);
    // task.save()
    db.tasks := db.tasks[id := merged];
    if v.assignee.Some? {
      // User.updateMany({ tasks: id, _id: { $nin: assignee } }, { $pull: { tasks: id } })
      db.users := PullFromOthers(db.users, v.assignee.value, id);
      // User.updateMany({ _id: { $in: assignee } }, { $addToSet: { tasks: id } })
      db.users := AddToSetEach(db.users, v.assignee.value, id);
    }
    reply := Success;
    if Symmetric(users0, tasks0) {
      if v.assignee.Some? {
        UpdateTaskPreservesSymmetry(users0, tasks0, id, merged);
      } else {
        UpdateTaskKeepingAssigneesPreservesSymmetry(users0, tasks0, id, merged);
      }
    }
  }

  /** `deleteTask`. No role check. A missing task is a 404; otherwise every
      occurrence of the id is pulled from every user, then the task is
      removed. */
  method DeleteTask(db: Database, id: TaskId) returns (reply: Reply)
    requires db.Valid()
    modifies db
    ensures db.Valid()
    ensures id !in old(db.tasks) ==>
              reply == NotFound(TaskNotFound) && db.users == old(db.users) && db.tasks == old(db.tasks)
    ensures id in old(db.tasks) ==>
              && reply == Success
              && db.users == PullEverywhere(old(db.users), id)
              && db.tasks == old(db.tasks) - {id}
    ensures id in old(db.tasks) ==> forall u :: u in db.users ==> id !in db.users[u].tasks
    ensures Symmetric(old(db.users), old(db.tasks)) ==> Symmetric(db.users, db.tasks)
  {
    if id !in db.tasks {
      return NotFound(TaskNotFound);
    }
    ghost var users0, tasks0 := db.users, db.tasks;
    // User.updateMany({ tasks: id }, { $pull: { tasks: id } })
    db.users := PullEverywhere(db.users, id);
    // TaskModel.findByIdAndDelete(id)
    db.tasks := db.tasks - {id};
    reply := Success;
    if Symmetric(users0, tasks0) {
      DeleteTaskPreservesSymmetry(users0, tasks0, id);
    }
  }

  /** The fields `getAllTasks` and `getTaskById` answer with (timestamps are
      not modelled; `creator` is not part of the answer). */
  datatype TaskView = TaskView(
    id: TaskId,
    task_name: string,
    task_description: string,
    status: Status,
    dueDate: Date,
    priority: Priority,
    assignee: seq<UserId>)

  function ViewOfTask(id: TaskId, t: Task): TaskView
  {
    TaskView(id, t.task_name, t.task_description, t.status, t.dueDate, t.priority, t.assignee)
  }

  /** `getAllTasks`: one view per stored task, in `find()` order, with
      `count` equal to the number of results. */
  function GetAllTasks(tasks: Tasks, order: seq<TaskId>): (r: Listing<TaskView>)
    requires Enumerates(order, tasks.Keys)
    ensures r.NoData? <==> tasks == map[]
    ensures r.Listed? ==> r.count == |r.results| == |tasks|
    ensures r.Listed? ==> forall i :: 0 <= i < |r.results| ==>
              r.results[i].id in tasks && r.results[i] == ViewOfTask(r.results[i].id, tasks[r.results[i].id])
    ensures r.Listed? ==> forall t :: t in tasks ==> exists i :: 0 <= i < |r.results| && r.results[i].id == t
    ensures r.Listed? ==> forall i, j :: 0 <= i < j < |r.results| ==> r.results[i].id != r.results[j].id
  {
    EnumerationSize(order, tasks.Keys);
    if |order| == 0 then NoData
    else
      var results := seq(|order|, i requires 0 <= i < |order| => ViewOfTask(order[i], tasks[order[i]]));
      assert forall t :: t in tasks ==> exists i :: 0 <= i < |order| && order[i] == t && results[i].id == t;
      Listed(|results|, results)
  }

  /** `getTaskById`: the task's view, or 404 'Task not found.' (None). */
  function GetTaskById(tasks: Tasks, id: TaskId): (r: Option<TaskView>)
    ensures r.Some? <==> id in tasks
    ensures r.Some? ==> && r.value.id == id
                        && r.value.task_name == tasks[id].task_name
                        && r.value.task_description == tasks[id].task_description
                        && r.value.status == tasks[id].status
                        && r.value.dueDate == tasks[id].dueDate
                        && r.value.priority == tasks[id].priority
                        && r.value.assignee == tasks[id].assignee
  {
    if id in tasks then Some(ViewOfTask(id, tasks[id])) else None
  }
}
