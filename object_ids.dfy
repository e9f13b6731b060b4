/** Document identities. MongoDB generates an ObjectId for every new
    document; here an id is an opaque wrapper around a number, and the store
    hands out ids it has never used before. User and task ids are distinct
    types, as the schemas' `ref: 'User'` and `ref: 'Task'` intend. */
module ObjectIds {

  datatype UserId = UserId(n: nat)

  datatype TaskId = TaskId(n: nat)
}
