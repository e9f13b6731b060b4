/** The User document schema: optional name and password, an email under a
    unique index, the role enum with its default, and the list of task ids. */
module UserModel {
  import opened Basics
  import opened ObjectIds

  datatype Role = AdminRole | UserRole

  /** A stored user. The schema requires none of the strings. */
  datatype User = User(
    user_name: Option<string>,
    email: Option<string>,
    password: Option<string>,
    role: Role,
    tasks: seq<TaskId>)

  function RoleName(r: Role): string
  {
    match r
    case AdminRole => "Admin"
    case UserRole => "User"
  }

  function ParseRole(s: string): (r: Option<Role>)
    ensures r.Some? <==> s in {"Admin", "User"}
    ensures r.Some? ==> RoleName(r.value) == s
  {
    if s == "Admin" then Some(AdminRole)
    else if s == "User" then Some(UserRole)
    else None
  }

  const StoreDefaultRole := UserRole

  /** `new User(doc)`: a missing role becomes User and the task list starts
      empty. */
  function NewUser(user_name: Option<string>, email: Option<string>,
                   password: Option<string>, role: Option<Role>): (u: User)
    ensures u.tasks == []
    ensures role.None? ==> u.role == UserRole
    ensures role.Some? ==> u.role == role.value
    ensures u.email == email && u.user_name == user_name && u.password == password
  {
    User(user_name, email, password,
         if role.Some? then role.value else StoreDefaultRole, [])
  }

  /** The unique index on `email`. The index is not sparse, so two users
      without an email (both indexed as null) also collide. */
  predicate EmailsUnique(users: map<UserId, User>)
  {
    forall a, b :: a in users && b in users && a != b ==> users[a].email != users[b].email
  }

  /** Some user other than `except` already holds `email`. */
  predicate EmailTaken(users: map<UserId, User>, email: Option<string>, except: Option<UserId>)
  {
    exists u :: u in users && Some(u) != except && users[u].email == email
  }

  /** Inserting a user whose email nobody holds keeps the index unique. */
  lemma {:induction false} InsertKeepsEmailsUnique(users: map<UserId, User>, id: UserId, u: User)
    requires EmailsUnique(users) && id !in users
    requires !EmailTaken(users, u.email, None)
    ensures EmailsUnique(users[id := u])
  {
    var users' := users[id := u];
    forall a, b | a in users' && b in users' && a != b
      ensures users'[a].email != users'[b].email
    {
      if a == id {
        assert users[b].email != u.email;
      } else if b == id {
        assert users[a].email != u.email;
      }
    }
  }

  /** Replacing a user's record by one whose email no other user holds keeps
      the index unique. */
  lemma {:induction false} ReplaceKeepsEmailsUnique(users: map<UserId, User>, id: UserId, u: User)
    requires EmailsUnique(users) && id in users
    requires !EmailTaken(users, u.email, Some(id))
    ensures EmailsUnique(users[id := u])
  {
    var users' := users[id := u];
    forall a, b | a in users' && b in users' && a != b
      ensures users'[a].email != users'[b].email
    {
      if a == id {
        assert Some(b) != Some(id) && users[b].email != u.email;
      } else if b == id {
        assert Some(a) != Some(id) && users[a].email != u.email;
      }
    }
  }
}
