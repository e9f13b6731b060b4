/** The client's `users` slice: the fetched user list and the status of the
    fetch (`loading`, `error`, `success`), changed in place by four reducers.
    `T` is the type of a fetched user and `E` that of an error payload.
    Every falsy action payload (`undefined`, `null`, `""`, `0`, `false`),
    which `payload || []` replaces by `[]`, is `None`. */
module UserSlice {
  import opened Basics

  /** `error`: `null`, the `[]` written when an error action has no
      payload, or the payload itself. */
  datatype ErrorValue<E> = Null | EmptyList | Payload(value: E)

  datatype SliceState<T, E> = SliceState(data: seq<T>, loading: bool, error: ErrorValue<E>, success: bool)

  /** The four actions: getAllUsersAction, getAllUsersSuccess,
      getAllUsersError, getAllUsersReset. */
  datatype Action<T, E> = Request | Receive(users: Option<seq<T>>) | Fail(reason: Option<E>) | Reset

  /** `initialState`. */
  function InitialState<T, E>(): SliceState<T, E>
  {
    SliceState([], false, Null, false)
  }

  /** The slice reducer: the state after one action. */
  function Reduce<T, E>(s: SliceState<T, E>, a: Action<T, E>): (r: SliceState<T, E>)
    ensures !(r.loading && r.success)
    ensures r.loading <==> a.Request?
    ensures r.success <==> a.Receive?
    ensures !a.Receive? ==> r.data == s.data
    ensures a.Receive? ==> r.error == s.error
    ensures a.Request? || a.Reset? ==> r.error == Null
    ensures a.Fail? ==> r.error != Null
  {
    match a
    case Request => s.(loading := true, error := Null, success := false)
    case Receive(users) => s.(loading := false, data := if users.Some? then users.value else [], success := true)
    case Fail(reason) => s.(loading := false, error := if reason.Some? then Payload(reason.value) else EmptyList, success := false)
    case Reset => s.(loading := false, error := Null, success := false)
  }

  /** The state after dispatching `actions` in order, starting from `s`. */
  function Run<T, E>(s: SliceState<T, E>, actions: seq<Action<T, E>>): SliceState<T, E>
  {
    if actions == [] then s else Reduce(Run(s, actions[..|actions| - 1]), actions[|actions| - 1])
  }

  /** The list the last successful fetch delivered (`[]` for a missing
      payload), or `[]` if none has succeeded yet. */
  function LastDelivered<T, E>(actions: seq<Action<T, E>>): seq<T>
  {
    if actions == [] then []
    else match actions[|actions| - 1]
      case Receive(users) => if users.Some? then users.value else []
      case _ => LastDelivered(actions[..|actions| - 1])
  }

  /** From the initial state no sequence of actions makes the slice both
      loading and successful. */
  lemma {:induction false} NeverLoadingAndSucceeded<T, E>(actions: seq<Action<T, E>>)
    ensures var s := Run(InitialState<T, E>(), actions); !(s.loading && s.success)
  {
    if actions != [] {
      NeverLoadingAndSucceeded(actions[..|actions| - 1]);
    }
  }

  /** `data` always holds what the last successful fetch delivered: the
      start, error and reset actions never change it. */
  lemma {:induction false} DataIsLastDelivered<T, E>(actions: seq<Action<T, E>>)
    ensures Run(InitialState<T, E>(), actions).data == LastDelivered(actions)
  {
    if actions != [] {
      DataIsLastDelivered(actions[..|actions| - 1]);
    }
  }

  /** `loading` is set exactly when the last action was a fetch start, and
      `success` exactly when it was a successful fetch. */
  lemma {:induction false} FlagsFollowLastAction<T, E>(actions: seq<Action<T, E>>)
    requires actions != []
    ensures Run(InitialState<T, E>(), actions).loading <==> actions[|actions| - 1].Request?
    ensures Run(InitialState<T, E>(), actions).success <==> actions[|actions| - 1].Receive?
  {
  }

  /** The slice as the store holds it: one object whose fields the reducers
      assign in place. */
  class UsersSlice<T, E> {
    var data: seq<T>
    var loading: bool
    var error: ErrorValue<E>
    var success: bool

    function State(): SliceState<T, E>
      reads this
    {
      SliceState(data, loading, error, success)
    }

    constructor ()
      ensures State() == InitialState()
    {
      data, loading, error, success := [], false, Null, false;
    }

    /** `getAllUsersAction`: a fetch has started. */
    method GetAllUsersAction()
      modifies this
      ensures loading && error == Null && !success && data == old(data)
      ensures State() == Reduce(old(State()), Request)
    {
      loading := true;
      error := Null;
      success := false;
    }

    /** `getAllUsersSuccess`: the fetch delivered `users`. */
    method GetAllUsersSuccess(users: Option<seq<T>>)
      modifies this
      ensures !loading && success && error == old(error)
      ensures data == if users.Some? then users.value else []
      ensures State() == Reduce(old(State()), Receive(users))
    {
      loading := false;
      data := if users.Some? then users.value else [];
      success := true;
    }

    /** `getAllUsersError`: the fetch failed with `reason`. */
    method GetAllUsersError(reason: Option<E>)
      modifies this
      ensures !loading && !success && data == old(data)
      ensures error == if reason.Some? then Payload(reason.value) else EmptyList
      ensures State() == Reduce(old(State()), Fail(reason))
    {
      loading := false;
      error := if reason.Some? then Payload(reason.value) else EmptyList;
      success := false;
    }

    /** `getAllUsersReset`: back to idle, keeping the data. */
    method GetAllUsersReset()
      modifies this
      ensures !loading && error == Null && !success && data == old(data)
      ensures State() == Reduce(old(State()), Reset)
    {
      loading := false;
      error := Null;
      success := false;
    }
  }
}
