/** The two MongoDB collections the controllers share, and the HTTP replies
    the handlers send. */
module Store {
  import opened ObjectIds
  import opened TaskModel
  import opened UserModel
  import opened FieldValidations

  /** The Users and Tasks collections. Ids below the counters have been
      handed out; an id is never handed out twice. */
  class Database {
    var users: map<UserId, User>
    var tasks: map<TaskId, Task>
    var nextUserId: nat
    var nextTaskId: nat

    /** Every stored id was handed out, the unique email index holds, no
        two tasks share a name, and every task passed Mongoose's
        required-field checks. */
    ghost predicate Valid()
      reads this
    {
      && (forall u :: u in users ==> u.n < nextUserId)
      && (forall t :: t in tasks ==> t.n < nextTaskId)
      && EmailsUnique(users)
      && NamesUnique(tasks)
      && (forall t :: t in tasks ==> WellFormed(tasks[t]))
    }

    constructor ()
      ensures Valid()
      ensures users == map[] && tasks == map[]
    {
      users, tasks := map[], map[];
      nextUserId, nextTaskId := 0, 0;
    }

    /** A new ObjectId for a task document. */
    method NewTaskId() returns (t: TaskId)
      requires Valid()
      modifies this`nextTaskId
      ensures Valid()
      ensures t == TaskId(old(nextTaskId)) && t !in tasks
      ensures nextTaskId == old(nextTaskId) + 1
    {
      t := TaskId(nextTaskId);
      nextTaskId := nextTaskId + 1;
    }

    /** A new ObjectId for a user document. */
    method NewUserId() returns (u: UserId)
      requires Valid()
      modifies this`nextUserId
      ensures Valid()
      ensures u == UserId(old(nextUserId)) && u !in users
      ensures nextUserId == old(nextUserId) + 1
    {
      u := UserId(nextUserId);
      nextUserId := nextUserId + 1;
    }
  }

  /** The status and JSON body a handler answers with. */
  datatype Reply =
    | Created                                  // 201, success
    | Success                                  // 200, success
    | BadRequest(message: string)              // 400, { error: true, message }
    | Invalid(errors: seq<FieldError>)         // 400, { errors: [...] } from a ValidationError
    | Forbidden(message: string)               // 403
    | NotFound(message: string)                // 404
    | InternalError                            // 500, 'Internal server error.'

  /** A list answer: 404 'No data found.' when empty, else `count` and
      `results`. */
  datatype Listing<T> = NoData | Listed(count: nat, results: seq<T>)
}
