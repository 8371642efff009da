/** The Redux `auth` slice: a user, an authenticated flag, a loading flag
    and an error, changed by two plain reducers and by the pending,
    fulfilled and rejected cases of the login, register and logout thunks.
    The thunks' network and next-auth calls are not part of this model:
    their outcomes arrive as actions. */
module AuthSlice {
  import opened Wrappers

  /** The user as the slice stores it. */
  datatype AuthUser = AuthUser(id: string, name: Option<string>, email: Option<string>, image: Option<string>, role: Option<string>)

  /** The slice state. */
  datatype AuthState = AuthState(user: Option<AuthUser>, isAuthenticated: bool, loading: bool, error: Option<string>)

  /** The actions the slice handles; a rejected thunk carries its message. */
  datatype AuthAction =
    | ClearError
    | SetUser(payload: Option<AuthUser>)
    | LoginPending | LoginFulfilled | LoginRejected(message: string)
    | RegisterPending | RegisterFulfilled | RegisterRejected(message: string)
    | LogoutFulfilled

  const InitialState: AuthState := AuthState(None, false, false, None)

  /** The slice's invariant: authenticated exactly when a user is stored. */
  predicate Consistent(s: AuthState) {
    s.isAuthenticated <==> s.user.Some?
  }

  /** The reducer, one case per handled action. */
  function Reduce(s: AuthState, a: AuthAction): AuthState {
    match a
    case ClearError => s.(error := None)
    case SetUser(payload) => s.(user := payload, isAuthenticated := payload.Some?)
    case LoginPending => s.(loading := true, error := None)
    case LoginFulfilled => s.(loading := false, error := None)
    case LoginRejected(message) => s.(loading := false, error := Some(message))
    case RegisterPending => s.(loading := true, error := None)
    case RegisterFulfilled => s.(loading := false, error := None)
    case RegisterRejected(message) => s.(loading := false, error := Some(message))
    case LogoutFulfilled => s.(user := None, isAuthenticated := false, error := None)
  }

  /** The state after a sequence of actions, oldest first. */
  function ReduceAll(s: AuthState, actions: seq<AuthAction>): AuthState
    decreases |actions|
  {
    if actions == [] then s else ReduceAll(Reduce(s, actions[0]), actions[1..])
  }

  /** The initial state has no user, is not authenticated, not loading and
      has no error. */
  lemma InitialStateEmpty()
    ensures InitialState.user.None? && !InitialState.isAuthenticated
    ensures !InitialState.loading && InitialState.error.None?
    ensures Consistent(InitialState)
  {
  }

  /** Every reducer keeps the invariant; `SetUser` establishes it from any state. */
  lemma ReducePreservesConsistent(s: AuthState, a: AuthAction)
    requires Consistent(s) || a.SetUser?
    ensures Consistent(Reduce(s, a))
  {
  }

  /** From the initial state, every sequence of actions keeps the invariant. */
  lemma {:induction false} ReduceAllConsistent(s: AuthState, actions: seq<AuthAction>)
    requires Consistent(s)
    ensures Consistent(ReduceAll(s, actions))
    decreases |actions|
  {
    if actions != [] {
      ReducePreservesConsistent(s, actions[0]);
      ReduceAllConsistent(Reduce(s, actions[0]), actions[1..]);
    }
  }

  /** `setUser` stores the payload and sets the flag to whether it is present. */
  lemma SetUserStores(s: AuthState, payload: Option<AuthUser>)
    ensures Reduce(s, SetUser(payload)).user == payload
    ensures Reduce(s, SetUser(payload)).isAuthenticated <==> payload.Some?
    ensures Reduce(s, SetUser(payload)).loading == s.loading
    ensures Reduce(s, SetUser(payload)).error == s.error
  {
  }

  /** `clearError` clears the error and changes nothing else. */
  lemma ClearErrorOnlyClearsError(s: AuthState)
    ensures Reduce(s, ClearError) == AuthState(s.user, s.isAuthenticated, s.loading, None)
  {
  }

  /** A pending login or register sets loading, clears the error, and leaves
      the user and the flag alone. */
  lemma PendingStartsLoading(s: AuthState, a: AuthAction)
    requires a == LoginPending || a == RegisterPending
    ensures Reduce(s, a) == AuthState(s.user, s.isAuthenticated, true, None)
  {
  }

  /** A fulfilled login or register stops loading, clears the error, and
      does not change the user or the flag. */
  lemma FulfilledStopsLoading(s: AuthState, a: AuthAction)
    requires a == LoginFulfilled || a == RegisterFulfilled
    ensures Reduce(s, a) == AuthState(s.user, s.isAuthenticated, false, None)
  {
  }

  /** A rejected login or register stops loading and records the rejection
      message as the error. */
  lemma RejectedRecordsError(s: AuthState, a: AuthAction)
    requires a.LoginRejected? || a.RegisterRejected?
    ensures Reduce(s, a) == AuthState(s.user, s.isAuthenticated, false, Some(a.message))
  {
  }

  /** A fulfilled logout clears the user, the flag and the error, and
      leaves the loading flag as it was. */
  lemma LogoutClears(s: AuthState)
    ensures Reduce(s, LogoutFulfilled) == AuthState(None, false, s.loading, None)
  {
  }

  /** The store holding the slice state; `Dispatch` updates its fields in
      place as the reducers do. */
  class AuthStore {
    var user: Option<AuthUser>
    var isAuthenticated: bool
    var loading: bool
    var error: Option<string>

    function State(): AuthState
      reads this
    {
      AuthState(user, isAuthenticated, loading, error)
    }

    constructor ()
      ensures State() == InitialState
    {
      user := None;
      isAuthenticated := false;
      loading := false;
      error := None;
    }

    method Dispatch(a: AuthAction)
      modifies this
      ensures State() == Reduce(old(State()), a)
      ensures old(Consistent(State())) || a.SetUser? ==> Consistent(State())
    {
      match a {
        case ClearError =>
          error := None;
        case SetUser(payload) =>
          user := payload;
          isAuthenticated := payload.Some?;
        case LoginPending =>
          loading := true;
          error := None;
        case LoginFulfilled =>
          loading := false;
          error := None;
        case LoginRejected(message) =>
          loading := false;
          error := Some(message);
        case RegisterPending =>
          loading := true;
          error := None;
        case RegisterFulfilled =>
          loading := false;
          error := None;
        case RegisterRejected(message) =>
          loading := false;
          error := Some(message);
        case LogoutFulfilled =>
          user := None;
          isAuthenticated := false;
          error := None;
      }
    }
  }
}
