# MERN task manager: users, tasks and their cross references, in Dafny

This project models the core of a task-management web application (an
Express/Mongoose server and a React/Redux client). The server keeps two
MongoDB collections: Users (name, email under a unique index, password,
role Admin/User, ordered list of task ids) and Tasks (name, description,
status, priority, due date, ordered lists of assignee and creator user ids).
The task handlers keep `Task.assignee` and `User.tasks` in step with the
array operators `$push`, `$pull` and `$addToSet` applied through
`updateMany`. The user handlers edit only the user collection.

What is modelled:

- `basics.dfy`: Option/Result, duplicate-free sequences, cardinality facts.
- `mongo_arrays.dfy`: `$push`, `$pull` and `$addToSet` as sequence functions.
- `object_ids.dfy`: opaque user and task ids.
- `task_model.dfy`, `user_model.dfy`: the two document schemas with their
  enums, store defaults and the unique email index.
- `field_validations.dfy`: the four yup schemas as total functions returning
  either the normalised body (defaults filled in) or every field error.
- `references.dfy`: referential symmetry (`u ∈ t.assignee ⇔ t ∈ u.tasks`,
  over all ids, so a dangling reference on either side breaks it). It also
  holds the effect of each `updateMany` on the user map, and the proofs that
  create, update and delete of tasks, and create and update of users,
  preserve symmetry, while deleting a user who holds a task breaks it.
- `store.dfy`: the class `Database` holding both collections as maps with
  fresh-id counters, and the HTTP replies.
- `task_controller.dfy`, `user_controller.dfy`: every handler. Each
  mutating handler is a method. The create and update handlers first
  evaluate a pure check function that runs that handler's guards in its
  source order (for example role header, body, validation, duplicate name,
  assignee count for `createTask`; existence before validation for the
  updates) and yields the reply or the validated body. The delete handlers
  test existence inline. Every handler then performs its writes in source
  order. The read handlers are pure projections.
- `user_slice.dfy`: the client's `users` slice as a class whose four
  reducers assign its fields in place. It is specified by a reducer function
  and proved never to be loading and successful at once.

Behaviour of the code that is easy to misread, modelled as written:

- Create with a repeated assignee id is rejected (400), not de-duplicated.
  `User.find` returns each user once, so the count check fails.
- Task names are unique only through the controllers' lookups. There is no
  index on `task_name`.
- `createUser` answers validation failures with 500, not 400.
- `updateUser` answers validation failures, and an email already held by
  another user, with 500.
- An update that omits `status`, `priority` or `role` resets it to the
  schema default (Pending, Low, User).
- The create path always stores priority Low when none is given. The store's
  own default, Medium, never applies there.

## Model

| member | source | states |
|---|---|---|
| MongoArrays.Push | Server/src/controllers/TaskController.js:42-45 | `$push` appends exactly one element at the end and keeps the prefix |
| MongoArrays.Pull | Server/src/controllers/TaskController.js:224-227 | `$pull` leaves exactly the elements different from the value, never lengthens the list, and is the identity when the value is absent |
| MongoArrays.PullCounts | Server/src/controllers/TaskController.js:224-227 | `$pull` removes every occurrence of the value and no occurrence of any other value |
| MongoArrays.PullConcat | Server/src/controllers/TaskController.js:112-115 | `$pull` keeps the order of what remains: pulling from a concatenation concatenates the pulled parts |
| MongoArrays.AddToSet | Server/src/controllers/TaskController.js:118-122 | `$addToSet` is the identity when the value is present and a `$push` otherwise |
| MongoArrays.AddToSetIdempotent | Server/src/controllers/TaskController.js:118-122 | adding to a set twice is adding once; the members afterwards are the old ones plus the value |
| TaskModel.ParseStatus | Server/src/models/TaskModel.js:7 | a status string is accepted exactly when it is Pending, In Progress or Completed, and parses to the value spelled that way |
| TaskModel.ParsePriority | Server/src/models/TaskModel.js:12 | a priority string is accepted exactly when it is Low, Medium or High |
| TaskModel.EnumNamesRoundTrip | Server/src/models/TaskModel.js:7-12 | spelling a status or priority and parsing it back gives the same value |
| TaskModel.NewTask | Server/src/models/TaskModel.js:5-12 | a new task document keeps the name, description and due date given; it defaults status to Pending, priority to Medium and an omitted reference list to empty, and keeps the status, priority and lists given |
| UserModel.ParseRole | Server/src/models/UserModel.js:8 | a role string is accepted exactly when it is Admin or User |
| UserModel.NewUser | Server/src/models/UserModel.js:5-9 | a new user document starts with no tasks, defaults role to User and keeps name, email and password as given |
| UserModel.InsertKeepsEmailsUnique | Server/src/models/UserModel.js:6 | inserting a user whose email nobody holds keeps emails unique across users |
| TaskModel.InsertKeepsNamesUnique | Server/src/controllers/TaskController.js:20-23 | inserting a task whose name no stored task has keeps task names unique (part of the store invariant `Valid`) |
| TaskModel.ReplaceKeepsNamesUnique | Server/src/controllers/TaskController.js:86-91 | replacing a task by one whose name no other task has keeps task names unique |
| UserModel.ReplaceKeepsEmailsUnique | Server/src/models/UserModel.js:6 | overwriting a user with an email no other user holds keeps emails unique |
| FieldValidations.ValidateCreateTask | Server/src/utils/FieldValidations.js:3-17 | accepts exactly when name, description, due date and creator are present and status/priority are in their domains; each error is reported if and only if its field is violated, all of them together; on success status defaults to Pending, priority to Low, and every other field is the one sent |
| FieldValidations.ValidateUpdateTask | Server/src/utils/FieldValidations.js:19-33 | same as create except that the due date is optional and never reported |
| FieldValidations.ValidateCreateUser | Server/src/utils/FieldValidations.js:35-40 | accepts exactly when name, a well-formed email and password are present and the role is Admin or User; missing email and malformed email are separate errors; role defaults to User |
| FieldValidations.ValidateUpdateUser | Server/src/utils/FieldValidations.js:42-47 | same as create except that the password is optional and passed through as sent |
| FieldValidations.ValidateTaskIdempotent | Server/src/utils/FieldValidations.js:3-33 | validating a normalised task body accepts it unchanged (normalisation is a fixed point) |
| FieldValidations.CreateTaskSchemaRefinesUpdate | Server/src/utils/FieldValidations.js:19-22 | whatever the create schema accepts, the update schema accepts with the same result; for every body with a due date the two schemas give the same answer, errors included; update rejects only bodies create rejects |
| FieldValidations.UpdateTaskErrorsDropDueDate | Server/src/utils/FieldValidations.js:3-33 | update's error list is create's with the due-date error removed, same order; when update accepts a body that create rejects, the missing due date is create's only error |
| FieldValidations.CreateUserSchemaRefinesUpdate | Server/src/utils/FieldValidations.js:42-45 | whatever the create-user schema accepts the update-user schema accepts identically |
| References.CountFoundMatches | Server/src/controllers/TaskController.js:26-33 | the count of users found by `$in` equals the list length if and only if the ids are pairwise distinct and all exist |
| References.PushToEach | Server/src/controllers/TaskController.js:42-45 | every listed user gets the task id appended; no other user changes; no user is added or removed |
| References.PullFromOthers | Server/src/controllers/TaskController.js:112-115 | every user outside the list loses all occurrences of the task id; listed users are unchanged |
| References.AddToSetEach | Server/src/controllers/TaskController.js:118-122 | every listed user gets the task id added once; other users are unchanged |
| References.PullEverywhere | Server/src/controllers/TaskController.js:224-227 | every user loses all occurrences of the task id and nothing else |
| References.ReassignEffect | Server/src/controllers/TaskController.js:110-123 | after the two updates, users outside the list hold no occurrence of the task; listed users that held it are unchanged; listed users that did not hold it get it appended once |
| References.ReassignmentScenario | Server/src/controllers/TaskController.js:94-123 | a task created for u1 and u2 is held by both; reassigned to u2 and u3, u1 loses it, u2 is untouched and u3 gains it; deleted, none of them holds it |
| References.CreateTaskPreservesSymmetry | Server/src/controllers/TaskController.js:36-45 | inserting a task under a fresh id with existing assignees and pushing its id onto them preserves `u ∈ t.assignee ⇔ t ∈ u.tasks` |
| References.UpdateTaskPreservesSymmetry | Server/src/controllers/TaskController.js:104-123 | replacing a task's assignee list by existing users and running the pull/addToSet updates preserves symmetry |
| References.UpdateTaskKeepingAssigneesPreservesSymmetry | Server/src/controllers/TaskController.js:104-107 | an update that keeps the assignee list and writes no user preserves symmetry |
| References.DeleteTaskPreservesSymmetry | Server/src/controllers/TaskController.js:224-229 | pulling the id from every user and then removing the task preserves symmetry |
| References.CreateUserPreservesSymmetry | Server/src/controllers/UserController.js:14-16 | adding a new user with no tasks preserves symmetry |
| References.UpdateUserPreservesSymmetry | Server/src/controllers/UserController.js:47-62 | rewriting a user without touching its task list preserves symmetry |
| References.DeleteUserBreaksSymmetry | Server/src/controllers/UserController.js:169-177 | deleting a user that holds a task leaves that task listing the deleted id (a dangling reference), so symmetry fails |
| References.DeleteIdleUserPreservesSymmetry | Server/src/controllers/UserController.js:175 | deleting a user that holds no task preserves symmetry |
| Store.Database.NewTaskId | Server/src/controllers/TaskController.js:36-39 | a new task id is one no stored task has |
| Store.Database.NewUserId | Server/src/controllers/UserController.js:14-16 | a new user id is one no stored user has |
| TaskController.ToLowerCase | Server/src/controllers/TaskController.js:7 | the result has the same length and no capital letter; each capital becomes the small letter at the same alphabet position; every other character is kept |
| TaskController.ToLowerCaseIdempotent | Server/src/controllers/TaskController.js:7 | lower-casing an already lower-cased header changes nothing |
| TaskController.AdminHeaderSpellings | Server/src/controllers/TaskController.js:7-10 | the role header passes exactly when it is "admin" in any mix of upper and lower case |
| TaskController.StoredTask | Server/src/controllers/TaskController.js:36 | the saved task carries every validated field (so no store default applies) |
| TaskController.CreateTaskCheck | Server/src/controllers/TaskController.js:7-33 | missing role header gives 500, other non-admin role 403, missing body 400, invalid body 400 with all field errors, duplicate name 400, missing assignee list 500, unknown or repeated assignee 400; it passes exactly when none of these applies |
| TaskController.CreateTask | Server/src/controllers/TaskController.js:5-62 | on any rejection nothing is written; on success exactly one task is inserted under a fresh id and its id is pushed onto each assignee, other users unchanged; symmetry is preserved, and task names stay unique (`Valid`) |
| TaskController.CreatedTaskPriority | Server/src/models/TaskModel.js:12 | a task created without priority is stored as Low (the validator default), never the store default Medium unless Medium was sent; without status it is Pending |
| TaskController.UpdateTaskCheck | Server/src/controllers/TaskController.js:66-101 | missing role header 500, non-admin 403, missing task 404, invalid body 400 with all field errors, a new name another task has 400, an unknown or repeated assignee 400; passes exactly when the new name is unchanged or free and any assignee list is duplicate-free and resolves |
| TaskController.UpdateMergeEffect | Server/src/controllers/TaskController.js:104-107 | the merged task keeps the stored due date and assignees when they were not sent, takes them when sent, and resets an omitted status to Pending and an omitted priority to Low |
| TaskController.UpdateTask | Server/src/controllers/TaskController.js:64-145 | on rejection nothing is written; on success the merged task replaces the old one, users change only when an assignee list was sent (pull from others, then addToSet to listed); symmetry is preserved, and task names stay unique (`Valid`) |
| TaskController.DeleteTask | Server/src/controllers/TaskController.js:209-237 | no role check; a missing task gives 404 and no write; otherwise every user loses the id, the task is removed, and symmetry is preserved |
| TaskController.GetAllTasks | Server/src/controllers/TaskController.js:148-173 | 404 exactly when there are no tasks; otherwise count equals the number of results equals the number of tasks, each task appears exactly once with its own fields |
| TaskController.GetTaskById | Server/src/controllers/TaskController.js:175-207 | a view exists exactly when the task does, and carries its id, name, description, status, due date, priority and assignees |
| UserController.StoredUser | Server/src/controllers/UserController.js:14-16 | the saved user has the validated name, email, password and role and no tasks |
| UserController.CreateUserCheck | Server/src/controllers/UserController.js:4-27 | missing body 400, any validation failure 500, an email already held 400; passes exactly otherwise |
| UserController.CreateUser | Server/src/controllers/UserController.js:4-27 | on rejection nothing is stored; on success exactly one user is added under a fresh id; tasks never change; emails stay unique; symmetry is preserved |
| UserController.UpdateUserCheck | Server/src/controllers/UserController.js:29-69 | missing user 404; for an existing user every failure, a validation failure or an email held by another user, is 500; passes exactly otherwise |
| UserController.UpdateUserEffect | Server/src/controllers/UserController.js:47-62 | name and email are overwritten, tasks kept, a missing role becomes User (demoting an Admin), the password changes only to a non-empty one that was sent, and an omitted or empty password keeps the stored one |
| UserController.UpdateUser | Server/src/controllers/UserController.js:29-69 | on rejection nothing is written; on success only that user's record changes; tasks never change; symmetry is preserved |
| UserController.DeleteUser | Server/src/controllers/UserController.js:161-183 | missing user 404; otherwise only that user is removed and no task is edited, so symmetry is lost whenever the user held a task |
| UserController.Populate | Server/src/controllers/UserController.js:74-79 | populated tasks are exactly the listed ids that name a task, each with that task's fields; nothing is dropped when all ids exist |
| UserController.PopulateConcat | Server/src/controllers/UserController.js:74-79 | populating keeps the order and repeats of the user's task ids: populating a concatenation concatenates the parts |
| UserController.PopulateSingle | Server/src/controllers/UserController.js:74-79 | one id populates to its task's summary, or to nothing when no task has that id |
| UserController.GetAllUsers | Server/src/controllers/UserController.js:71-116 | 404 exactly when there are no users; otherwise count equals the number of results equals the number of users, each user appears exactly once with its populated tasks |
| UserController.GetUserById | Server/src/controllers/UserController.js:118-159 | a view exists exactly when the user does, with its id, name, email and role, and its task ids replaced by the populated tasks (never more than it lists) |
| UserController.SymmetricPopulatesFully | Server/src/controllers/UserController.js:94-104 | while symmetry holds, every task a user lists is shown and lists the user back |
| UserSlice.Reduce | Client/src/Store/Slices/UserSlice.jsx:14-33 | after any action the slice is never loading and successful at once; loading iff a fetch started, success iff it delivered; only a delivery changes data and it leaves the error alone |
| UserSlice.NeverLoadingAndSucceeded | Client/src/Store/Slices/UserSlice.jsx:3-33 | from the initial state no sequence of actions reaches loading and success together |
| UserSlice.DataIsLastDelivered | Client/src/Store/Slices/UserSlice.jsx:19-23 | data is always what the last successful fetch delivered (or empty) |
| UserSlice.FlagsFollowLastAction | Client/src/Store/Slices/UserSlice.jsx:14-33 | loading and success are determined by the last action alone |
| UserSlice.UsersSlice.constructor | Client/src/Store/Slices/UserSlice.jsx:3-8 | the initial state is empty data, not loading, null error, no success |
| UserSlice.UsersSlice.GetAllUsersAction | Client/src/Store/Slices/UserSlice.jsx:14-18 | sets loading, clears error and success, keeps data |
| UserSlice.UsersSlice.GetAllUsersSuccess | Client/src/Store/Slices/UserSlice.jsx:19-23 | clears loading, sets success, replaces data by the payload or empty, keeps error |
| UserSlice.UsersSlice.GetAllUsersError | Client/src/Store/Slices/UserSlice.jsx:24-28 | clears loading and success, sets error to the payload or an empty list, keeps data |
| UserSlice.UsersSlice.GetAllUsersReset | Client/src/Store/Slices/UserSlice.jsx:29-33 | clears loading, error and success, keeps data |

## Left out

- Authentication (register, login, refresh token): JWT signing and bcrypt hashing are library calls with no logic of their own here.
- Server start-up, database connection, Express route wiring, the client store's persistence and logging middleware, and all React components: I/O and rendering only.
- Timestamps (`createdAt`, `updatedAt`, `Date.now()`): not modelled; the views omit them.
- Ids are typed values, so strings that are not ObjectIds are not modelled. In the source a malformed id in the URL or in `assignee` makes a query throw a CastError, answered with 500. A malformed `creator` entry, which yup accepts as a string, makes `save()` reject with Mongoose's own ValidationError. That error has no `inner` list, so `error.inner.map` throws inside the catch block and no reply is sent at all. The `!req.params.id` checks are not modelled either, since the routes always supply the parameter.
- The `error.code === 11000` branches of the task handlers (400 'Task already exists.') are not modelled. `task_name` has no index, so they are reached only through the `_id` index. yup passes unknown keys through, so a body that carries an existing task's `_id` makes `save()` fail with 11000. The typed payload has no `_id` field, so the model cannot express that request.
- Request bodies are typed. yup's coercion of non-string values and its date parsing are not modelled. A due date is a number of milliseconds.
- UserController.CreateUser: unknown keys are not modelled. yup keeps them and `new User(userValidateData)` stores a `tasks` key sent in the body, so in the source `createUser` can store a user already holding task ids and break symmetry. The symmetry clause of CreateUser holds only for bodies without such a key, which are the only bodies the typed payload can express.
- FieldValidations.ValidateCreateUser: the email pattern is a parameter `isEmail` (the same for ValidateUpdateUser); which strings yup's pattern accepts is not modelled.
- FieldValidations.ValidateCreateTask: the order of the error list (schema order here) is not part of the contract, only which errors are present; the same holds for the other three schemas.
- The schemas follow yup 1.x: a required array is missing only when absent. yup 0.x also rejected an empty array for `creator`; that version is not modelled.
- TaskController.ToLowerCase: lower-casing is modelled for ASCII letters only. No other character lower-cases to a single letter of "admin", so the outcome of the check is the same.
- The missing-body check is modelled only where the handlers make it (`createTask`, `createUser`). The update handlers receive a parsed body.
- TaskController.GetAllTasks: the order in which `find()` returns documents is a parameter (any enumeration of the keys); the order is not modelled. The same holds for UserController.GetAllUsers.
- A Mongoose validation error on save other than the `creator` cast above cannot occur after the yup checks, which require the same fields and enums.
- Concurrent requests: each handler runs as one sequential method. The source has no transactions or locks, so interleavings of two handlers' writes are not modelled.
