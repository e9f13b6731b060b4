/** The cross references between the two stores, and what each controller's
    `updateMany` does to users' `tasks` lists, as functions on the user map.

    Referential symmetry: user `u` is in the assignee list of task `t` exactly
    when `t` is in the task list of `u`, where a record that does not exist
    has no references. Dangling references in either direction violate it. */
module References {
  import opened Basics
  import opened ObjectIds
  import opened TaskModel
  import opened UserModel
  import opened MongoArrays

  type Users = map<UserId, User>
  type Tasks = map<TaskId, Task>

  /** Task `t` lists `u` as an assignee. */
  predicate Assigned(tasks: Tasks, u: UserId, t: TaskId)
  {
    t in tasks && u in tasks[t].assignee
  }

  /** User `u` lists `t` among its tasks. */
  predicate Holds(users: Users, u: UserId, t: TaskId)
  {
    u in users && t in users[u].tasks
  }

  /** `u ∈ t.assignee ⇔ t ∈ u.tasks`, over every pair of ids. */
  ghost predicate Symmetric(users: Users, tasks: Tasks)
  {
    forall u, t :: Assigned(tasks, u, t) <==> Holds(users, u, t)
  }

  /** Every id in the list names an existing user. */
  predicate AllExist(users: Users, ids: seq<UserId>)
  {
    forall i :: 0 <= i < |ids| ==> ids[i] in users
  }

  /** The number of documents `User.find({ _id: { $in: ids } })` returns:
      each existing user whose id is listed, counted once. */
  function CountFound(users: Users, ids: seq<UserId>): nat
  {
    |set u | u in users && u in ids|
  }

  /** The assignee check `found.length === ids.length` passes exactly when
      the ids are pairwise distinct and all name existing users: an unknown
      id and a repeated id both make the counts differ. */
  lemma {:induction false} CountFoundMatches(users: Users, ids: seq<UserId>)
    ensures CountFound(users, ids) == |ids| <==> NoDuplicates(ids) && AllExist(users, ids)
  {
    var found := set u | u in users && u in ids;
    var listed := Elems(ids);
    assert found <= listed;
    ElemsCardinality(ids);
    SubsetCardinality(found, listed);
    if CountFound(users, ids) == |ids| {
      forall i | 0 <= i < |ids| ensures ids[i] in users {
        assert ids[i] in listed;
      }
    }
    if NoDuplicates(ids) && AllExist(users, ids) {
      forall u | u in listed ensures u in found {
        var i :| 0 <= i < |ids| && ids[i] == u;
      }
      assert found == listed;
    }
  }

  /** `updateMany({ _id: { $in: ids } }, { $push: { tasks: t } })`. */
  function PushToEach(users: Users, ids: seq<UserId>, t: TaskId): (r: Users)
    ensures r.Keys == users.Keys
    ensures forall u :: u in users && u in ids ==> r[u] == users[u].(tasks := Push(users[u].tasks, t))
    ensures forall u :: u in users && u !in ids ==> r[u] == users[u]
  {
    map u | u in users :: if u in ids then users[u].(tasks := Push(users[u].tasks, t)) else users[u]
  }

  /** `updateMany({ tasks: t, _id: { $nin: keep } }, { $pull: { tasks: t } })`. */
  function PullFromOthers(users: Users, keep: seq<UserId>, t: TaskId): (r: Users)
    ensures r.Keys == users.Keys
    ensures forall u :: u in users && u !in keep ==> r[u] == users[u].(tasks := Pull(users[u].tasks, t))
    ensures forall u :: u in users && u in keep ==> r[u] == users[u]
  {
    map u | u in users ::
      if t in users[u].tasks && u !in keep then users[u].(tasks := Pull(users[u].tasks, t)) else users[u]
  }

  /** `updateMany({ _id: { $in: ids } }, { $addToSet: { tasks: t } })`. */
  function AddToSetEach(users: Users, ids: seq<UserId>, t: TaskId): (r: Users)
    ensures r.Keys == users.Keys
    ensures forall u :: u in users && u in ids ==> r[u] == users[u].(tasks := AddToSet(users[u].tasks, t))
    ensures forall u :: u in users && u !in ids ==> r[u] == users[u]
  {
    map u | u in users :: if u in ids then users[u].(tasks := AddToSet(users[u].tasks, t)) else users[u]
  }

  /** `updateMany({ tasks: t }, { $pull: { tasks: t } })`. */
  function PullEverywhere(users: Users, t: TaskId): (r: Users)
    ensures r.Keys == users.Keys
    ensures forall u :: u in users ==> r[u] == users[u].(tasks := Pull(users[u].tasks, t))
  {
    map u | u in users :: if t in users[u].tasks then users[u].(tasks := Pull(users[u].tasks, t)) else users[u]
  }

  /** The two `updateMany` calls of `updateTask`, in order. */
  function Reassign(users: Users, ids: seq<UserId>, t: TaskId): Users
  {
    AddToSetEach(PullFromOthers(users, ids, t), ids, t)
  }

  /** What reassignment does to each user: users outside the list keep no
      occurrence of `t` and lose nothing else; a listed user that already
      held `t` is left exactly as it was; a listed user that did not gets
      `t` appended once. */
  lemma ReassignEffect(users: Users, ids: seq<UserId>, t: TaskId)
    ensures Reassign(users, ids, t).Keys == users.Keys
    ensures forall u :: u in users && u !in ids ==>
              Reassign(users, ids, t)[u] == users[u].(tasks := Pull(users[u].tasks, t))
              && t !in Reassign(users, ids, t)[u].tasks
    ensures forall u :: u in users && u in ids && t in users[u].tasks ==>
              Reassign(users, ids, t)[u] == users[u]
    ensures forall u :: u in users && u in ids && t !in users[u].tasks ==>
              Reassign(users, ids, t)[u] == users[u].(tasks := users[u].tasks + [t])
  {
  }

  /** createTask's writes preserve symmetry: inserting a task under a fresh
      id whose assignees all exist, then pushing its id onto each of them. */
  lemma {:induction false} CreateTaskPreservesSymmetry(users: Users, tasks: Tasks, t: TaskId, task: Task)
    requires Symmetric(users, tasks)
    requires t !in tasks
    requires AllExist(users, task.assignee)
    ensures Symmetric(PushToEach(users, task.assignee, t), tasks[t := task])
  {
    var users', tasks' := PushToEach(users, task.assignee, t), tasks[t := task];
    forall u, t' ensures Assigned(tasks', u, t') <==> Holds(users', u, t') {
      assert Assigned(tasks, u, t') <==> Holds(users, u, t');
      if t' == t {
        // Nobody held the fresh id: holding it would make it an existing task.
        if u in task.assignee {
          var i :| 0 <= i < |task.assignee| && task.assignee[i] == u;
        }
      }
    }
  }

  /** updateTask with an assignee list preserves symmetry: the task's list
      becomes `ids`, and the two `updateMany` calls make the users agree. */
  lemma {:induction false} UpdateTaskPreservesSymmetry(users: Users, tasks: Tasks, t: TaskId, task: Task)
    requires Symmetric(users, tasks)
    requires t in tasks
    requires AllExist(users, task.assignee)
    ensures Symmetric(Reassign(users, task.assignee, t), tasks[t := task])
  {
    var users', tasks' := Reassign(users, task.assignee, t), tasks[t := task];
    ReassignEffect(users, task.assignee, t);
    forall u, t' ensures Assigned(tasks', u, t') <==> Holds(users', u, t') {
      assert Assigned(tasks, u, t') <==> Holds(users, u, t');
      if t' == t && u in task.assignee {
        var i :| 0 <= i < |task.assignee| && task.assignee[i] == u;
      }
    }
  }

  /** updateTask without an assignee list writes only the task, and keeps
      its assignee list, so symmetry is untouched. */
  lemma {:induction false} UpdateTaskKeepingAssigneesPreservesSymmetry(users: Users, tasks: Tasks, t: TaskId, task: Task)
    requires Symmetric(users, tasks)
    requires t in tasks && task.assignee == tasks[t].assignee
    ensures Symmetric(users, tasks[t := task])
  {
    forall u, t' ensures Assigned(tasks[t := task], u, t') <==> Holds(users, u, t') {
      assert Assigned(tasks, u, t') <==> Holds(users, u, t');
    }
  }

  /** deleteTask's writes preserve symmetry: pulling the id from every user,
      then removing the task. */
  lemma {:induction false} DeleteTaskPreservesSymmetry(users: Users, tasks: Tasks, t: TaskId)
    requires Symmetric(users, tasks)
    ensures Symmetric(PullEverywhere(users, t), tasks - {t})
  {
    var users', tasks' := PullEverywhere(users, t), tasks - {t};
    forall u, t' ensures Assigned(tasks', u, t') <==> Holds(users', u, t') {
      assert Assigned(tasks, u, t') <==> Holds(users, u, t');
    }
  }

  /** createUser preserves symmetry: the new user holds no task, and no task
      can list an id that names no user. */
  lemma {:induction false} CreateUserPreservesSymmetry(users: Users, tasks: Tasks, u: UserId, user: User)
    requires Symmetric(users, tasks)
    requires u !in users && user.tasks == []
    ensures Symmetric(users[u := user], tasks)
  {
    forall u', t ensures Assigned(tasks, u', t) <==> Holds(users[u := user], u', t) {
      assert Assigned(tasks, u', t) <==> Holds(users, u', t);
    }
  }

  /** updateUser preserves symmetry: it never writes a user's task list. */
  lemma {:induction false} UpdateUserPreservesSymmetry(users: Users, tasks: Tasks, u: UserId, user: User)
    requires Symmetric(users, tasks)
    requires u in users && user.tasks == users[u].tasks
    ensures Symmetric(users[u := user], tasks)
  {
    forall u', t ensures Assigned(tasks, u', t) <==> Holds(users[u := user], u', t) {
      assert Assigned(tasks, u', t) <==> Holds(users, u', t);
    }
  }

  /** deleteUser removes only the user record. If that user held any task,
      the task still lists the deleted id as an assignee: a dangling
      reference, and symmetry no longer holds. */
  lemma {:induction false} DeleteUserBreaksSymmetry(users: Users, tasks: Tasks, u: UserId, t: TaskId)
    requires Symmetric(users, tasks)
    requires u in users && t in users[u].tasks
    ensures t in tasks && u in tasks[t].assignee && u !in users - {u}
    ensures !Symmetric(users - {u}, tasks)
  {
    assert Holds(users, u, t);
    assert Assigned(tasks, u, t);
    assert !Holds(users - {u}, u, t);
  }

  /** Deleting a user that held no task keeps symmetry. */
  lemma {:induction false} DeleteIdleUserPreservesSymmetry(users: Users, tasks: Tasks, u: UserId)
    requires Symmetric(users, tasks)
    requires u in users && users[u].tasks == []
    ensures Symmetric(users - {u}, tasks)
  {
    forall u', t ensures Assigned(tasks, u', t) <==> Holds(users - {u}, u', t) {
      assert Assigned(tasks, u', t) <==> Holds(users, u', t);
    }
  }

  /** The life of one task assigned to u1 and u2, reassigned to u2 and u3,
      then deleted: after the create u1 and u2 hold it; after the update u1
      no longer does, u2 is as it was and u3 holds it; after the delete none
      of the three does. */
  lemma {:induction false} ReassignmentScenario(users: Users, u1: UserId, u2: UserId, u3: UserId, t: TaskId)
    requires u1 in users && u2 in users && u3 in users
    requires u1 != u2 && u2 != u3 && u1 != u3
    requires t !in users[u1].tasks && t !in users[u2].tasks && t !in users[u3].tasks
    ensures var created := PushToEach(users, [u1, u2], t);
      && t in created[u1].tasks && t in created[u2].tasks && t !in created[u3].tasks
      && var updated := Reassign(created, [u2, u3], t);
      && t !in updated[u1].tasks && updated[u2] == created[u2] && t in updated[u3].tasks
      && var deleted := PullEverywhere(updated, t);
      && t !in deleted[u1].tasks && t !in deleted[u2].tasks && t !in deleted[u3].tasks
  {
    var created := PushToEach(users, [u1, u2], t);
    assert u1 in [u1, u2] && u2 in [u1, u2] && u3 !in [u1, u2];
    assert t in created[u2].tasks;
    ReassignEffect(created, [u2, u3], t);
    assert u1 !in [u2, u3] && u2 in [u2, u3] && u3 in [u2, u3];
  }
}
