/** The user request handlers. As for tasks, the checks that decide the
    reply are a pure function of the stores and the request; the handler then
    writes. None of these handlers touches a task, not even on delete. */
module UserController {
  import opened Basics
  import opened ObjectIds
  import opened TaskModel
  import opened UserModel
  import opened FieldValidations
  import opened References
  import opened Store

  const UserDataRequired := "User data is required."
  const UserAlreadyExists := "User already exists."
  const UserNotFound := "User not found."

  /** The document `new User(validateData)` saves. */
  function StoredUser(v: UserData): (u: User)
    ensures u.tasks == [] && u.role == v.role
    ensures u.user_name == Some(v.user_name) && u.email == Some(v.email) && u.password == v.password
  {
    NewUser(Some(v.user_name), Some(v.email), v.password, Some(v.role))
  }

  /** What decides `createUser`'s reply. A validation error is not told
      apart from other failures: it is a 500. The unique email index makes
      the save fail with code 11000, answered as 400. */
  function CreateUserCheck(users: Users, body: Option<UserPayload>, isEmail: string -> bool)
    : (r: Result<UserData, Reply>)
    ensures body.None? ==> r == Err(BadRequest(UserDataRequired))
    ensures body.Some? && ValidateCreateUser(body.value, isEmail).Err? ==> r == Err(InternalError)
    ensures (&& body.Some? && ValidateCreateUser(body.value, isEmail).Ok?
             && EmailTaken(users, Some(ValidateCreateUser(body.value, isEmail).value.email), None)) ==>
              r == Err(BadRequest(UserAlreadyExists))
    ensures r.Ok? <==> && body.Some? && ValidateCreateUser(body.value, isEmail).Ok?
                       && !EmailTaken(users, Some(ValidateCreateUser(body.value, isEmail).value.email), None)
    ensures r.Ok? ==> r.value == ValidateCreateUser(body.value, isEmail).value
  {
    if body.None? then Err(BadRequest(UserDataRequired))
    else match ValidateCreateUser(body.value, isEmail)
      case Err(_) => Err(InternalError)
      case Ok(v) =>
        if EmailTaken(users, Some(v.email), None) then Err(BadRequest(UserAlreadyExists))
        else Ok(v)
  }

  /** `createUser`: on success one new user, with no tasks, under a fresh
      id; on any failure nothing is stored. */
  method CreateUser(db: Database, body: Option<UserPayload>, isEmail: string -> bool) returns (reply: Reply)
    requires db.Valid()
    modifies db
    ensures db.Valid()
    ensures var check := CreateUserCheck(old(db.users), body, isEmail);
      && (check.Err? ==> reply == check.error && db.users == old(db.users))
      && (check.Ok? ==>
            var u := UserId(old(db.nextUserId));
            && reply == Created
            && u !in old(db.users)
            && db.users == old(db.users)[u := StoredUser(check.value)])
    ensures db.tasks == old(db.tasks)
    ensures Symmetric(old(db.users), old(db.tasks)) ==> Symmetric(db.users, db.tasks)
  {
    var check := CreateUserCheck(db.users, body, isEmail);
    if check.Err? {
      return check.error;
    }
    var v := check.value;
    ghost var users0 := db.users;
    var u := db.NewUserId();
    InsertKeepsEmailsUnique(db.users, u, StoredUser(v));
    // userPayload.save()
    db.users := db.users[u := StoredUser(v)];
    reply := Created;
    if Symmetric(users0, db.tasks) {
      CreateUserPreservesSymmetry(users0, db.tasks, u, StoredUser(v));
    }
  }

  /** What decides `updateUser`'s reply. Validation failures and an email
      another user already holds (the unique index refuses the update) are
      both answered by the catch-all 500. */
  function UpdateUserCheck(users: Users, id: UserId, body: UserPayload, isEmail: string -> bool)
    : (r: Result<UserData, Reply>)
    ensures id !in users ==> r == Err(NotFound(UserNotFound))
    ensures id in users && ValidateUpdateUser(body, isEmail).Err? ==> r == Err(InternalError)
    ensures r.Ok? <==> && id in users && ValidateUpdateUser(body, isEmail).Ok?
                       && !EmailTaken(users, Some(ValidateUpdateUser(body, isEmail).value.email), Some(id))
    ensures (&& id in users && ValidateUpdateUser(body, isEmail).Ok?
             && EmailTaken(users, Some(ValidateUpdateUser(body, isEmail).value.email), Some(id))) ==>
              r == Err(InternalError)
    ensures id in users && r.Err? ==> r.error == InternalError
    ensures r.Err? ==> r.error in {NotFound(UserNotFound), InternalError}
    ensures r.Ok? ==> r.value == ValidateUpdateUser(body, isEmail).value
  {
    if id !in users then Err(NotFound(UserNotFound))
    else match ValidateUpdateUser(body, isEmail)
      case Err(_) => Err(InternalError)
      case Ok(v) =>
        if EmailTaken(users, Some(v.email), Some(id)) then Err(InternalError)
        else Ok(v)
  }

  /** The `findByIdAndUpdate` payload applied to the stored user: name,
      email and role are overwritten; the password only when a non-empty one
      was sent; the task list is never touched. */
  function UpdatedUser(stored: User, v: UserData): User
  {
    stored.(
      user_name := Some(v.user_name),
      email := Some(v.email),
      role := v.role,
      password := if v.password.Some? && v.password.value != "" then v.password else stored.password)
  }

  /** What an update does to the stored user, in terms of the request body.
      Because the schema defaults the role to User, a body without a role
      demotes an Admin. */
  lemma UpdateUserEffect(stored: User, body: UserPayload, isEmail: string -> bool)
    requires ValidateUpdateUser(body, isEmail).Ok?
    ensures var updated := UpdatedUser(stored, ValidateUpdateUser(body, isEmail).value);
      && updated.user_name == body.user_name
      && updated.email == body.email
      && updated.tasks == stored.tasks
      && (body.role.None? ==> updated.role == UserRole)
      && (body.role.Some? ==> RoleName(updated.role) == body.role.value)
      && (updated.password != stored.password ==> updated.password == body.password && body.password != Some(""))
      && (body.password.Some? && body.password.value != "" ==> updated.password == body.password)
      && (body.password.None? || body.password == Some("") ==> updated.password == stored.password)
  {
  }

  /** `updateUser`. A missing user is a 404; every other failure is a 500
      and writes nothing. */
  method UpdateUser(db: Database, id: UserId, body: UserPayload, isEmail: string -> bool) returns (reply: Reply)
    requires db.Valid()
    modifies db
    ensures db.Valid()
    ensures var check := UpdateUserCheck(old(db.users), id, body, isEmail);
      && (check.Err? ==> reply == check.error && db.users == old(db.users))
      && (check.Ok? ==>
            && reply == Success
            && db.users == old(db.users)[id := UpdatedUser(old(db.users)[id], check.value)])
    ensures db.tasks == old(db.tasks)
    ensures Symmetric(old(db.users), old(db.tasks)) ==> Symmetric(db.users, db.tasks)
  {
    var check := UpdateUserCheck(db.users, id, body, isEmail);
    if check.Err? {
      return check.error;
    }
    var updated := UpdatedUser(db.users[id], check.value);
    ghost var users0 := db.users;
    ReplaceKeepsEmailsUnique(db.users, id, updated);
    // User.findByIdAndUpdate(userId, userPayload)
    db.users := db.users[id := updated];
    reply := Success;
    if Symmetric(users0, db.tasks) {
      UpdateUserPreservesSymmetry(users0, db.tasks, id, updated);
    }
  }

  /** `deleteUser`: removes the user record and nothing else. Tasks keep the
      deleted id in their assignee lists, so a user that held a task leaves
      dangling references behind and symmetry is lost. */
  method DeleteUser(db: Database, id: UserId) returns (reply: Reply)
    requires db.Valid()
    modifies db
    ensures db.Valid()
    ensures id !in old(db.users) ==> reply == NotFound(UserNotFound) && db.users == old(db.users)
    ensures id in old(db.users) ==> reply == Success && db.users == old(db.users) - {id}
    ensures db.tasks == old(db.tasks)
    ensures (&& Symmetric(old(db.users), old(db.tasks))
             && id in old(db.users) && old(db.users)[id].tasks != []) ==>
              !Symmetric(db.users, db.tasks)
  {
    if id !in db.users {
      return NotFound(UserNotFound);
    }
    ghost var users0 := db.users;
    // User.findByIdAndDelete(userId)
    db.users := db.users - {id};
    reply := Success;
    if Symmetric(users0, db.tasks) && users0[id].tasks != [] {
      DeleteUserBreaksSymmetry(users0, db.tasks, id, users0[id].tasks[0]);
    }
  }

  /** The task fields `populate` selects for a user's answer. */
  datatype TaskSummary = TaskSummary(
    id: TaskId,
    task_name: string,
    task_description: string,
    status: Status,
    dueDate: Date,
    priority: Priority)

  function SummaryOf(id: TaskId, t: Task): TaskSummary
  {
    TaskSummary(id, t.task_name, t.task_description, t.status, t.dueDate, t.priority)
  }

  /** `populate({ path: 'tasks' })`: each id is replaced by the task it
      names, in order; ids that name no task are dropped. */
  function Populate(tasks: Tasks, ids: seq<TaskId>): (r: seq<TaskSummary>)
    ensures |r| <= |ids|
    ensures forall s :: s in r ==> s.id in ids && s.id in tasks && s == SummaryOf(s.id, tasks[s.id])
    ensures forall t :: t in ids && t in tasks ==> SummaryOf(t, tasks[t]) in r
    ensures (forall i :: 0 <= i < |ids| ==> ids[i] in tasks) ==> |r| == |ids|
  {
    if ids == [] then []
    else if ids[0] in tasks then [SummaryOf(ids[0], tasks[ids[0]])] + Populate(tasks, ids[1..])
    else Populate(tasks, ids[1..])
  }

  /** `populate` goes through the ids in order: populating a concatenation
      concatenates the populated parts, so the answer keeps the order and
      the repeats of the user's `tasks`. */
  lemma {:induction false} PopulateConcat(tasks: Tasks, a: seq<TaskId>, b: seq<TaskId>)
    ensures Populate(tasks, a + b) == Populate(tasks, a) + Populate(tasks, b)
  {
    if a == [] {
      assert a + b == b;
    } else {
      PopulateConcat(tasks, a[1..], b);
      assert (a + b)[0] == a[0] && (a + b)[1..] == a[1..] + b;
    }
  }

  /** One id populates to its task's summary, or to nothing when no task
      has that id. */
  lemma PopulateSingle(tasks: Tasks, t: TaskId)
    ensures t in tasks ==> Populate(tasks, [t]) == [SummaryOf(t, tasks[t])]
    ensures t !in tasks ==> Populate(tasks, [t]) == []
  {
  }

  /** The fields a user is answered with. There is no password field: the
      answer never carries one. */
  datatype UserView = UserView(
    id: UserId,
    user_name: Option<string>,
    email: Option<string>,
    role: Role,
    tasks: seq<TaskSummary>)

  function ViewOfUser(tasks: Tasks, id: UserId, u: User): UserView
  {
    UserView(id, u.user_name, u.email, u.role, Populate(tasks, u.tasks))
  }

  /** `getAllUsers`: one view per stored user, in `find()` order, each with
      its tasks populated, and `count` equal to the number of results. */
  function GetAllUsers(users: Users, tasks: Tasks, order: seq<UserId>): (r: Listing<UserView>)
    requires Enumerates(order, users.Keys)
    ensures r.NoData? <==> users == map[]
    ensures r.Listed? ==> r.count == |r.results| == |users|
    ensures r.Listed? ==> forall i :: 0 <= i < |r.results| ==>
              r.results[i].id in users && r.results[i] == ViewOfUser(tasks, r.results[i].id, users[r.results[i].id])
    ensures r.Listed? ==> forall u :: u in users ==> exists i :: 0 <= i < |r.results| && r.results[i].id == u
    ensures r.Listed? ==> forall i, j :: 0 <= i < j < |r.results| ==> r.results[i].id != r.results[j].id
  {
    EnumerationSize(order, users.Keys);
    if |order| == 0 then NoData
    else
      var results := seq(|order|, i requires 0 <= i < |order| => ViewOfUser(tasks, order[i], users[order[i]]));
      assert forall u :: u in users ==> exists i :: 0 <= i < |order| && order[i] == u && results[i].id == u;
      Listed(|results|, results)
  }

  /** `getUserById`: the user's view, or 404 'User not found.' (None). */
  function GetUserById(users: Users, tasks: Tasks, id: UserId): (r: Option<UserView>)
    ensures r.Some? <==> id in users
    ensures r.Some? ==> && r.value.id == id
                        && r.value.user_name == users[id].user_name
                        && r.value.email == users[id].email
                        && r.value.role == users[id].role
                        && r.value.tasks == Populate(tasks, users[id].tasks)
                        && |r.value.tasks| <= |users[id].tasks|
  {
    if id in users then Some(ViewOfUser(tasks, id, users[id])) else None
  }

  /** While the stores are symmetric, populating never drops anything: every
      task a user lists exists and lists the user back, so the answer shows
      all of them. After `deleteTask` this still holds; after `deleteUser` the
      dangling references are on the task side and do not show here. */
  lemma {:induction false} SymmetricPopulatesFully(users: Users, tasks: Tasks, u: UserId)
    requires Symmetric(users, tasks) && u in users
    ensures |Populate(tasks, users[u].tasks)| == |users[u].tasks|
    ensures forall s :: s in Populate(tasks, users[u].tasks) ==> u in tasks[s.id].assignee
  {
    forall i | 0 <= i < |users[u].tasks| ensures users[u].tasks[i] in tasks {
      assert Holds(users, u, users[u].tasks[i]);
    }
    forall s | s in Populate(tasks, users[u].tasks) ensures u in tasks[s.id].assignee {
      assert Holds(users, u, s.id);
    }
  }
}
