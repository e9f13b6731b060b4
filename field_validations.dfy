/** The four request schemas (create/update task, create/update user). Each
    is a function from a payload, whose fields may be absent, to either the
    normalised payload with defaults filled in, or the list of every field
    error (the controllers validate with `abortEarly: false`, so no error
    hides another). A required string is missing when it is absent or empty;
    a required list is missing only when absent (yup 1.x; yup 0.x also
    rejected an empty list). Email syntax is a parameter
    `isEmail`, and an empty email is reported as missing, not as malformed. */
module FieldValidations {
  import opened Basics
  import opened ObjectIds
  import opened TaskModel
  import opened UserModel
  import opened MongoArrays

  datatype FieldError = FieldError(field: string, message: string)

  /** A task request body; `None` is a field the client did not send. */
  datatype TaskPayload = TaskPayload(
    task_name: Option<string>,
    task_description: Option<string>,
    dueDate: Option<Date>,
    status: Option<string>,
    priority: Option<string>,
    assignee: Option<seq<UserId>>,
    creator: Option<seq<UserId>>)

  /** A task body that passed validation: enums parsed, defaults applied.
      `dueDate` and `assignee` stay optional (only create requires a date). */
  datatype TaskData = TaskData(
    task_name: string,
    task_description: string,
    dueDate: Option<Date>,
    status: Status,
    priority: Priority,
    assignee: Option<seq<UserId>>,
    creator: seq<UserId>)

  datatype UserPayload = UserPayload(
    user_name: Option<string>,
    email: Option<string>,
    password: Option<string>,
    role: Option<string>)

  datatype UserData = UserData(
    user_name: string,
    email: string,
    password: Option<string>,
    role: Role)

  const TaskNameRequired := "Task name is required."
  const TaskDescriptionRequired := "Task description is required."
  const DueDateRequired := "Due date is required."
  const InvalidStatus := "Invalid status."
  const InvalidPriority := "Invalid priority."
  const CreatorRequired := "Creator is required."
  const UserNameRequired := "Username is required."
  const EmailRequired := "Email is required."
  const InvalidEmail := "Invalid email."
  const PasswordRequired := "Password is required."
  const InvalidRole := "Invalid role."

  /** The schemas' defaults, applied before the `oneOf` checks. */
  const DefaultStatus := Pending
  const DefaultPriority := Low
  const DefaultRole := UserRole

  /** `string().required()` fails on an absent or empty string. */
  predicate MissingText(v: Option<string>)
  {
    v.None? || v.value == ""
  }

  predicate BadStatus(v: Option<string>)
  {
    v.Some? && ParseStatus(v.value).None?
  }

  predicate BadPriority(v: Option<string>)
  {
    v.Some? && ParsePriority(v.value).None?
  }

  predicate BadRole(v: Option<string>)
  {
    v.Some? && ParseRole(v.value).None?
  }

  /** A present, non-empty email that fails the email pattern. */
  predicate BadEmail(v: Option<string>, isEmail: string -> bool)
  {
    v.Some? && v.value != "" && !isEmail(v.value)
  }

  /** `r` is a rejection that lists the error `field`/`message`. */
  predicate Reported<R>(r: Result<R, seq<FieldError>>, field: string, message: string)
  {
    r.Err? && FieldError(field, message) in r.error
  }

  function ErrorIf(cond: bool, field: string, message: string): seq<FieldError>
  {
    if cond then [FieldError(field, message)] else []
  }

  /** Every error a task schema can report. */
  const TaskErrorCatalogue := [
    FieldError("task_name", TaskNameRequired),
    FieldError("task_description", TaskDescriptionRequired),
    FieldError("dueDate", DueDateRequired),
    FieldError("status", InvalidStatus),
    FieldError("priority", InvalidPriority),
    FieldError("creator", CreatorRequired)]

  /** Every error a user schema can report. */
  const UserErrorCatalogue := [
    FieldError("user_name", UserNameRequired),
    FieldError("email", EmailRequired),
    FieldError("email", InvalidEmail),
    FieldError("password", PasswordRequired),
    FieldError("role", InvalidRole)]

  lemma ErrorIfMembers(cond: bool, field: string, message: string)
    ensures forall e :: e in ErrorIf(cond, field, message) <==> cond && e == FieldError(field, message)
  {
  }

  /** All errors of a task body, in schema order. */
  function TaskErrors(p: TaskPayload, dueDateRequired: bool): seq<FieldError>
  {
    ErrorIf(MissingText(p.task_name), "task_name", TaskNameRequired)
    + ErrorIf(MissingText(p.task_description), "task_description", TaskDescriptionRequired)
    + ErrorIf(dueDateRequired && p.dueDate.None?, "dueDate", DueDateRequired)
    + ErrorIf(BadStatus(p.status), "status", InvalidStatus)
    + ErrorIf(BadPriority(p.priority), "priority", InvalidPriority)
    + ErrorIf(p.creator.None?, "creator", CreatorRequired)
  }

  lemma TaskErrorsMembers(p: TaskPayload, dueDateRequired: bool)
    ensures forall e :: e in TaskErrors(p, dueDateRequired) <==>
      || (e == TaskErrorCatalogue[0] && MissingText(p.task_name))
      || (e == TaskErrorCatalogue[1] && MissingText(p.task_description))
      || (e == TaskErrorCatalogue[2] && dueDateRequired && p.dueDate.None?)
      || (e == TaskErrorCatalogue[3] && BadStatus(p.status))
      || (e == TaskErrorCatalogue[4] && BadPriority(p.priority))
      || (e == TaskErrorCatalogue[5] && p.creator.None?)
  {
    ErrorIfMembers(MissingText(p.task_name), "task_name", TaskNameRequired);
    ErrorIfMembers(MissingText(p.task_description), "task_description", TaskDescriptionRequired);
    ErrorIfMembers(dueDateRequired && p.dueDate.None?, "dueDate", DueDateRequired);
    ErrorIfMembers(BadStatus(p.status), "status", InvalidStatus);
    ErrorIfMembers(BadPriority(p.priority), "priority", InvalidPriority);
    ErrorIfMembers(p.creator.None?, "creator", CreatorRequired);
  }

  /** The normalised task body; only meaningful when there are no errors. */
  function NormaliseTask(p: TaskPayload): TaskData
    requires !MissingText(p.task_name) && !MissingText(p.task_description)
    requires !BadStatus(p.status) && !BadPriority(p.priority) && p.creator.Some?
  {
    TaskData(
      p.task_name.value,
      p.task_description.value,
      p.dueDate,
      if p.status.None? then DefaultStatus else ParseStatus(p.status.value).value,
      if p.priority.None? then DefaultPriority else ParsePriority(p.priority.value).value,
      p.assignee,
      p.creator.value)
  }

  function ValidateTask(p: TaskPayload, dueDateRequired: bool): Result<TaskData, seq<FieldError>>
  {
    var errors := TaskErrors(p, dueDateRequired);
    if errors == [] then Ok(NormaliseTask(p)) else Err(errors)
  }

  /** `createTaskValidationSchema.validate(body, { abortEarly: false })`. */
  function ValidateCreateTask(p: TaskPayload): (r: Result<TaskData, seq<FieldError>>)
    ensures r.Ok? <==> !MissingText(p.task_name) && !MissingText(p.task_description)
                       && p.dueDate.Some? && !BadStatus(p.status) && !BadPriority(p.priority)
                       && p.creator.Some?
    ensures Reported(r, "task_name", TaskNameRequired) <==> MissingText(p.task_name)
    ensures Reported(r, "task_description", TaskDescriptionRequired) <==> MissingText(p.task_description)
    ensures Reported(r, "dueDate", DueDateRequired) <==> p.dueDate.None?
    ensures Reported(r, "status", InvalidStatus) <==> BadStatus(p.status)
    ensures Reported(r, "priority", InvalidPriority) <==> BadPriority(p.priority)
    ensures Reported(r, "creator", CreatorRequired) <==> p.creator.None?
    ensures r.Err? ==> forall e :: e in r.error ==> e in TaskErrorCatalogue
    ensures r.Ok? ==> && Some(r.value.task_name) == p.task_name
                      && Some(r.value.task_description) == p.task_description
                      && r.value.dueDate == p.dueDate && r.value.dueDate.Some?
                      && r.value.assignee == p.assignee
                      && Some(r.value.creator) == p.creator
                      && (p.status.None? ==> r.value.status == Pending)
                      && (p.status.Some? ==> StatusName(r.value.status) == p.status.value)
                      && (p.priority.None? ==> r.value.priority == Low)
                      && (p.priority.Some? ==> PriorityName(r.value.priority) == p.priority.value)
  {
    TaskErrorsMembers(p, true);
    ValidateTask(p, true)
  }

  /** `updateTaskValidationSchema`: as create, but `dueDate` is optional. */
  function ValidateUpdateTask(p: TaskPayload): (r: Result<TaskData, seq<FieldError>>)
    ensures r.Ok? <==> !MissingText(p.task_name) && !MissingText(p.task_description)
                       && !BadStatus(p.status) && !BadPriority(p.priority)
                       && p.creator.Some?
    ensures Reported(r, "task_name", TaskNameRequired) <==> MissingText(p.task_name)
    ensures Reported(r, "task_description", TaskDescriptionRequired) <==> MissingText(p.task_description)
    ensures !Reported(r, "dueDate", DueDateRequired)
    ensures Reported(r, "status", InvalidStatus) <==> BadStatus(p.status)
    ensures Reported(r, "priority", InvalidPriority) <==> BadPriority(p.priority)
    ensures Reported(r, "creator", CreatorRequired) <==> p.creator.None?
    ensures r.Err? ==> forall e :: e in r.error ==> e in TaskErrorCatalogue
    ensures r.Ok? ==> && Some(r.value.task_name) == p.task_name
                      && Some(r.value.task_description) == p.task_description
                      && r.value.dueDate == p.dueDate
                      && r.value.assignee == p.assignee
                      && Some(r.value.creator) == p.creator
                      && (p.status.None? ==> r.value.status == Pending)
                      && (p.status.Some? ==> StatusName(r.value.status) == p.status.value)
                      && (p.priority.None? ==> r.value.priority == Low)
                      && (p.priority.Some? ==> PriorityName(r.value.priority) == p.priority.value)
  {
    TaskErrorsMembers(p, false);
    ValidateTask(p, false)
  }

  /** All errors of a user body, in schema order. */
  function UserErrors(p: UserPayload, isEmail: string -> bool, passwordRequired: bool): seq<FieldError>
  {
    ErrorIf(MissingText(p.user_name), "user_name", UserNameRequired)
    + ErrorIf(MissingText(p.email), "email", EmailRequired)
    + ErrorIf(BadEmail(p.email, isEmail), "email", InvalidEmail)
    + ErrorIf(passwordRequired && MissingText(p.password), "password", PasswordRequired)
    + ErrorIf(BadRole(p.role), "role", InvalidRole)
  }

  lemma UserErrorsMembers(p: UserPayload, isEmail: string -> bool, passwordRequired: bool)
    ensures forall e :: e in UserErrors(p, isEmail, passwordRequired) <==>
      || (e == UserErrorCatalogue[0] && MissingText(p.user_name))
      || (e == UserErrorCatalogue[1] && MissingText(p.email))
      || (e == UserErrorCatalogue[2] && BadEmail(p.email, isEmail))
      || (e == UserErrorCatalogue[3] && passwordRequired && MissingText(p.password))
      || (e == UserErrorCatalogue[4] && BadRole(p.role))
  {
    ErrorIfMembers(MissingText(p.user_name), "user_name", UserNameRequired);
    ErrorIfMembers(MissingText(p.email), "email", EmailRequired);
    ErrorIfMembers(BadEmail(p.email, isEmail), "email", InvalidEmail);
    ErrorIfMembers(passwordRequired && MissingText(p.password), "password", PasswordRequired);
    ErrorIfMembers(BadRole(p.role), "role", InvalidRole);
  }

  function NormaliseUser(p: UserPayload): UserData
    requires !MissingText(p.user_name) && !MissingText(p.email) && !BadRole(p.role)
  {
    UserData(
      p.user_name.value,
      p.email.value,
      p.password,
      if p.role.None? then DefaultRole else ParseRole(p.role.value).value)
  }

  function ValidateUser(p: UserPayload, isEmail: string -> bool, passwordRequired: bool): Result<UserData, seq<FieldError>>
  {
    var errors := UserErrors(p, isEmail, passwordRequired);
    if errors == [] then Ok(NormaliseUser(p)) else Err(errors)
  }

  /** `createUserValidationSchema`. */
  function ValidateCreateUser(p: UserPayload, isEmail: string -> bool): (r: Result<UserData, seq<FieldError>>)
    ensures r.Ok? <==> !MissingText(p.user_name) && !MissingText(p.email) && isEmail(p.email.value)
                       && !MissingText(p.password) && !BadRole(p.role)
    ensures Reported(r, "user_name", UserNameRequired) <==> MissingText(p.user_name)
    ensures Reported(r, "email", EmailRequired) <==> MissingText(p.email)
    ensures Reported(r, "email", InvalidEmail) <==> BadEmail(p.email, isEmail)
    ensures Reported(r, "password", PasswordRequired) <==> MissingText(p.password)
    ensures Reported(r, "role", InvalidRole) <==> BadRole(p.role)
    ensures r.Err? ==> forall e :: e in r.error ==> e in UserErrorCatalogue
    ensures r.Ok? ==> && Some(r.value.user_name) == p.user_name
                      && Some(r.value.email) == p.email
                      && r.value.password == p.password && r.value.password.Some?
                      && (p.role.None? ==> r.value.role == UserRole)
                      && (p.role.Some? ==> RoleName(r.value.role) == p.role.value)
  {
    UserErrorsMembers(p, isEmail, true);
    ValidateUser(p, isEmail, true)
  }

  /** `updateUserValidationSchema`: as create, but `password` is optional. */
  function ValidateUpdateUser(p: UserPayload, isEmail: string -> bool): (r: Result<UserData, seq<FieldError>>)
    ensures r.Ok? <==> !MissingText(p.user_name) && !MissingText(p.email) && isEmail(p.email.value)
                       && !BadRole(p.role)
    ensures Reported(r, "user_name", UserNameRequired) <==> MissingText(p.user_name)
    ensures Reported(r, "email", EmailRequired) <==> MissingText(p.email)
    ensures Reported(r, "email", InvalidEmail) <==> BadEmail(p.email, isEmail)
    ensures !Reported(r, "password", PasswordRequired)
    ensures Reported(r, "role", InvalidRole) <==> BadRole(p.role)
    ensures r.Err? ==> forall e :: e in r.error ==> e in UserErrorCatalogue
    ensures r.Ok? ==> && Some(r.value.user_name) == p.user_name
                      && Some(r.value.email) == p.email
                      && r.value.password == p.password
                      && (p.role.None? ==> r.value.role == UserRole)
                      && (p.role.Some? ==> RoleName(r.value.role) == p.role.value)
  {
    UserErrorsMembers(p, isEmail, false);
    ValidateUser(p, isEmail, false)
  }

  /** The payload a normalised task body reads back as. */
  function TaskDataAsPayload(v: TaskData): TaskPayload
  {
    TaskPayload(Some(v.task_name), Some(v.task_description), v.dueDate,
                Some(StatusName(v.status)), Some(PriorityName(v.priority)),
                v.assignee, Some(v.creator))
  }

  /** Normalising is a fixed point: validating what a validation produced
      accepts it unchanged. */
  lemma {:induction false} ValidateTaskIdempotent(p: TaskPayload, dueDateRequired: bool)
    requires ValidateTask(p, dueDateRequired).Ok?
    ensures ValidateTask(TaskDataAsPayload(ValidateTask(p, dueDateRequired).value), dueDateRequired)
            == ValidateTask(p, dueDateRequired)
  {
    var v := ValidateTask(p, dueDateRequired).value;
    EnumNamesRoundTrip(v.status, v.priority);
  }

  /** The update schema only relaxes the create schema: a body create
      accepts is accepted by update with the same result, and with a due
      date present the two schemas give the same answer. */
  lemma CreateTaskSchemaRefinesUpdate(p: TaskPayload)
    ensures ValidateCreateTask(p).Ok? ==> ValidateUpdateTask(p) == ValidateCreateTask(p)
    ensures p.dueDate.Some? ==> ValidateCreateTask(p) == ValidateUpdateTask(p)
    ensures ValidateUpdateTask(p).Err? ==> ValidateCreateTask(p).Err?
  {
  }

  /** Pulling a value that occurs at most once, in the third of six parts,
      removes just that part. */
  lemma PullThird(a: seq<FieldError>, b: seq<FieldError>, c: seq<FieldError>,
                  d: seq<FieldError>, e: seq<FieldError>, f: seq<FieldError>, x: FieldError)
    requires x !in a && x !in b && x !in d && x !in e && x !in f
    requires c == [] || c == [x]
    ensures Pull(a + b + c + d + e + f, x) == a + b + [] + d + e + f
  {
    PullConcat(a + b + c + d + e, f, x);
    PullConcat(a + b + c + d, e, x);
    PullConcat(a + b + c, d, x);
    PullConcat(a + b, c, x);
    PullConcat(a, b, x);
    if c != [] {
      assert Pull(c[1..], x) == [];
    }
  }

  lemma NotInErrorIf(cond: bool, field: string, message: string, x: FieldError)
    requires x.field != field
    ensures x !in ErrorIf(cond, field, message)
  {
  }

  /** Without the due-date requirement the error list is the one with it,
      minus the due-date error. */
  lemma {:induction false} TaskErrorsDropDueDate(p: TaskPayload)
    ensures TaskErrors(p, false) == Pull(TaskErrors(p, true), FieldError("dueDate", DueDateRequired))
  {
    var dd := FieldError("dueDate", DueDateRequired);
    NotInErrorIf(MissingText(p.task_name), "task_name", TaskNameRequired, dd);
    NotInErrorIf(MissingText(p.task_description), "task_description", TaskDescriptionRequired, dd);
    NotInErrorIf(BadStatus(p.status), "status", InvalidStatus, dd);
    NotInErrorIf(BadPriority(p.priority), "priority", InvalidPriority, dd);
    NotInErrorIf(p.creator.None?, "creator", CreatorRequired, dd);
    PullThird(
      ErrorIf(MissingText(p.task_name), "task_name", TaskNameRequired),
      ErrorIf(MissingText(p.task_description), "task_description", TaskDescriptionRequired),
      ErrorIf(p.dueDate.None?, "dueDate", DueDateRequired),
      ErrorIf(BadStatus(p.status), "status", InvalidStatus),
      ErrorIf(BadPriority(p.priority), "priority", InvalidPriority),
      ErrorIf(p.creator.None?, "creator", CreatorRequired),
      dd);
  }

  /** Update's error list is create's with the due-date error pulled out,
      in the same order; when update accepts a body create rejects, the
      due date is the only error. */
  lemma {:induction false} UpdateTaskErrorsDropDueDate(p: TaskPayload)
    ensures ValidateUpdateTask(p).Err? ==>
              ValidateUpdateTask(p).error == Pull(ValidateCreateTask(p).error, FieldError("dueDate", DueDateRequired))
    ensures ValidateUpdateTask(p).Ok? && ValidateCreateTask(p).Err? ==>
              ValidateCreateTask(p).error == [FieldError("dueDate", DueDateRequired)]
  {
    TaskErrorsDropDueDate(p);
    TaskErrorsMembers(p, true);
    if ValidateUpdateTask(p).Ok? && ValidateCreateTask(p).Err? {
      assert TaskErrors(p, false) == [];
      assert p.dueDate.None?;
      assert TaskErrors(p, true) == [] + [FieldError("dueDate", DueDateRequired)] + [];
    }
  }

  /** Likewise for users: update relaxes only the password requirement. */
  lemma CreateUserSchemaRefinesUpdate(p: UserPayload, isEmail: string -> bool)
    ensures ValidateCreateUser(p, isEmail).Ok? ==> ValidateUpdateUser(p, isEmail) == ValidateCreateUser(p, isEmail)
    ensures ValidateUpdateUser(p, isEmail).Err? ==> ValidateCreateUser(p, isEmail).Err?
  {
  }
}
