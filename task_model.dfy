/** The Task document schema: field types, the status and priority enums
    with their string spellings, and the defaults the store itself applies. */
module TaskModel {
  import opened Basics
  import opened ObjectIds

  datatype Status = Pending | InProgress | Completed

  datatype Priority = Low | Medium | High

  /** A due date, as milliseconds since the epoch. */
  type Date = int

  /** A stored task. `assignee` and `creator` are ordered lists of user ids. */
  datatype Task = Task(
    task_name: string,
    task_description: string,
    status: Status,
    assignee: seq<UserId>,
    creator: seq<UserId>,
    dueDate: Date,
    priority: Priority)

  function StatusName(s: Status): string
  {
    match s
    case Pending => "Pending"
    case InProgress => "In Progress"
    case Completed => "Completed"
  }

  function PriorityName(p: Priority): string
  {
    match p
    case Low => "Low"
    case Medium => "Medium"
    case High => "High"
  }

  /** The `enum` check: a string is accepted exactly when it spells one of
      the three statuses. */
  function ParseStatus(s: string): (r: Option<Status>)
    ensures r.Some? <==> s in {"Pending", "In Progress", "Completed"}
    ensures r.Some? ==> StatusName(r.value) == s
  {
    if s == "Pending" then Some(Pending)
    else if s == "In Progress" then Some(InProgress)
    else if s == "Completed" then Some(Completed)
    else None
  }

  function ParsePriority(s: string): (r: Option<Priority>)
    ensures r.Some? <==> s in {"Low", "Medium", "High"}
    ensures r.Some? ==> PriorityName(r.value) == s
  {
    if s == "Low" then Some(Low)
    else if s == "Medium" then Some(Medium)
    else if s == "High" then Some(High)
    else None
  }

  /** Spelling an enum value and parsing it back gives the value. */
  lemma EnumNamesRoundTrip(s: Status, p: Priority)
    ensures ParseStatus(StatusName(s)) == Some(s)
    ensures ParsePriority(PriorityName(p)) == Some(p)
  {
  }

  const StoreDefaultStatus := Pending
  const StoreDefaultPriority := Medium

  /** `new TaskModel(doc)`: fields the document omits take the schema's
      defaults (status Pending, priority Medium, empty reference lists). */
  function NewTask(
    task_name: string, task_description: string, status: Option<Status>,
    assignee: Option<seq<UserId>>, creator: Option<seq<UserId>>,
    dueDate: Date, priority: Option<Priority>): (t: Task)
    ensures t.task_name == task_name && t.task_description == task_description && t.dueDate == dueDate
    ensures assignee.Some? ==> t.assignee == assignee.value
    ensures creator.Some? ==> t.creator == creator.value
    ensures status.None? ==> t.status == Pending
    ensures priority.None? ==> t.priority == Medium
    ensures assignee.None? ==> t.assignee == []
    ensures creator.None? ==> t.creator == []
    ensures status.Some? ==> t.status == status.value
    ensures priority.Some? ==> t.priority == priority.value
  {
    Task(task_name, task_description,
         if status.Some? then status.value else StoreDefaultStatus,
         if assignee.Some? then assignee.value else [],
         if creator.Some? then creator.value else [],
         dueDate,
         if priority.Some? then priority.value else StoreDefaultPriority)
  }

  /** `required: true` on the two strings: Mongoose refuses to save a task
      whose name or description is empty. `task_name` carries no unique
      index. */
  predicate WellFormed(t: Task)
  {
    t.task_name != "" && t.task_description != ""
  }

  /** No two tasks share a name. The schema has no index for this; the
      controllers keep it by looking the name up before every write. */
  predicate NamesUnique(tasks: map<TaskId, Task>)
  {
    forall a, b :: a in tasks && b in tasks && a != b ==> tasks[a].task_name != tasks[b].task_name
  }

  /** Inserting a task whose name no stored task has keeps names unique. */
  lemma {:induction false} InsertKeepsNamesUnique(tasks: map<TaskId, Task>, id: TaskId, t: Task)
    requires NamesUnique(tasks) && id !in tasks
    requires forall k :: k in tasks ==> tasks[k].task_name != t.task_name
    ensures NamesUnique(tasks[id := t])
  {
    var tasks' := tasks[id := t];
    forall a, b | a in tasks' && b in tasks' && a != b
      ensures tasks'[a].task_name != tasks'[b].task_name
    {
      if a == id {
        assert tasks[b].task_name != t.task_name;
      } else if b == id {
        assert tasks[a].task_name != t.task_name;
      }
    }
  }

  /** Replacing a task by one whose name no other task has keeps names
      unique. */
  lemma {:induction false} ReplaceKeepsNamesUnique(tasks: map<TaskId, Task>, id: TaskId, t: Task)
    requires NamesUnique(tasks) && id in tasks
    requires forall k :: k in tasks && k != id ==> tasks[k].task_name != t.task_name
    ensures NamesUnique(tasks[id := t])
  {
    var tasks' := tasks[id := t];
    forall a, b | a in tasks' && b in tasks' && a != b
      ensures tasks'[a].task_name != tasks'[b].task_name
    {
      if a == id {
        assert tasks[b].task_name != t.task_name;
      } else if b == id {
        assert tasks[a].task_name != t.task_name;
      }
    }
  }
}
