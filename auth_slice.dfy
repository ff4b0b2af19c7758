/** The authentication slice: its state, the `setSession` and `clearMessages` reducers, and the
    pending / fulfilled / rejected cases of the register, login and logout thunks. The session is
    abstract: a token and the user it belongs to. */
module AuthSlice {
  import opened Wrappers

  datatype User = User(id: string, email: string)

  datatype Session = Session(access_token: string, user: User)

  datatype Status = Idle | Loading | Error

  datatype AuthState = AuthState(
    session: Option<Session>,
    user: Option<User>,
    status: Status,
    error: Option<string>,
    info: Option<string>)

  /** What a rejected thunk carries: `a.error.message`, which may be undefined. */
  datatype Action =
    | SetSession(payload: Option<Session>)
    | ClearMessages
    | RegisterPending
    | RegisterFulfilled(session: Option<Session>)
    | RegisterRejected(message: Option<string>)
    | LoginPending
    | LoginFulfilled(session: Option<Session>)
    | LoginRejected(message: Option<string>)
    | LogoutPending
    | LogoutFulfilled
    | LogoutRejected(message: Option<string>)

  const ConfirmEmailInfo := "Account created. Please check your email to confirm your account."
  const RegisterFailed := "Register failed"
  const LoginFailed := "Login failed"
  const LogoutFailed := "Logout failed"

  /** `initialState` */
  const Initial := AuthState(None, None, Idle, None, None)

  /** `payload?.user ?? null` */
  function UserOf(s: Option<Session>): (u: Option<User>)
    ensures u.Some? <==> s.Some?
    ensures s.Some? ==> u.value == s.value.user
  {
    if s.Some? then Some(s.value.user) else None
  }

  /** The state after one action. `logout` has no pending case, so its pending action changes
      nothing. */
  function Reduce(s: AuthState, a: Action): AuthState {
    match a
    case SetSession(p) => s.(session := p, user := UserOf(p))
    case ClearMessages => s.(error := None, info := None)
    case RegisterPending => s.(status := Loading, error := None, info := None)
    case RegisterFulfilled(p) =>
      var s' := s.(status := Idle, session := p, user := UserOf(p));
      if p.None? then s'.(info := Some(ConfirmEmailInfo)) else s'
    case RegisterRejected(m) => s.(status := Error, error := Some(m.GetOr(RegisterFailed)))
    case LoginPending => s.(status := Loading, error := None, info := None)
    case LoginFulfilled(p) => s.(status := Idle, session := p, user := UserOf(p))
    case LoginRejected(m) => s.(status := Error, error := Some(m.GetOr(LoginFailed)))
    case LogoutPending => s
    case LogoutFulfilled => s.(session := None, user := None, status := Idle, error := None, info := None)
    case LogoutRejected(m) => s.(status := Error, error := Some(m.GetOr(LogoutFailed)))
  }

  function ReduceAll(s: AuthState, actions: seq<Action>): AuthState
    decreases |actions|
  {
    if actions == [] then s else ReduceAll(Reduce(s, actions[0]), actions[1..])
  }

  /** The user shown is always the session's user, or none without a session. */
  predicate UserMatchesSession(s: AuthState) {
    s.user == UserOf(s.session)
  }

  /** While a request is loading, no error or info message is shown. */
  predicate QuietWhileLoading(s: AuthState) {
    s.status == Loading ==> s.error.None? && s.info.None?
  }

  predicate Consistent(s: AuthState) {
    UserMatchesSession(s) && QuietWhileLoading(s)
  }

  /** The initial state is signed out, idle and without messages, and consistent. */
  lemma InitialIsSignedOut()
    ensures Initial.session.None? && Initial.user.None? && Initial.status == Idle
    ensures Initial.error.None? && Initial.info.None?
    ensures Consistent(Initial)
  {
  }

  /** Every action keeps the state consistent. */
  lemma ReducePreservesConsistent(s: AuthState, a: Action)
    requires Consistent(s)
    ensures Consistent(Reduce(s, a))
  {
  }

  /** So does every sequence of actions from a consistent state, such as the initial one. */
  lemma {:induction false} ReachableConsistent(s: AuthState, actions: seq<Action>)
    requires Consistent(s)
    ensures Consistent(ReduceAll(s, actions))
    decreases |actions|
  {
    if actions != [] {
      ReducePreservesConsistent(s, actions[0]);
      ReachableConsistent(Reduce(s, actions[0]), actions[1..]);
    }
  }

  /** `setSession(p)` installs the session and its user and touches nothing else. */
  lemma SetSessionInstalls(s: AuthState, p: Option<Session>)
    ensures var s' := Reduce(s, SetSession(p));
      && s'.session == p && UserMatchesSession(s')
      && s'.status == s.status && s'.error == s.error && s'.info == s.info
  {
  }

  /** `clearMessages` removes both messages, keeps the session, user and status, and a second
      one changes nothing. */
  lemma ClearMessagesKeepsSession(s: AuthState)
    ensures var s' := Reduce(s, ClearMessages);
      && s'.error.None? && s'.info.None?
      && s'.session == s.session && s'.user == s.user && s'.status == s.status
      && Reduce(s', ClearMessages) == s'
  {
  }

  /** A pending register or login shows loading and clears both messages; a pending logout
      changes nothing. */
  lemma PendingClears(s: AuthState, a: Action)
    requires a.RegisterPending? || a.LoginPending?
    ensures var s' := Reduce(s, a);
      && s'.status == Loading && s'.error.None? && s'.info.None?
      && s'.session == s.session && s'.user == s.user
    ensures Reduce(s, LogoutPending) == s
  {
  }

  /** A register that needs email confirmation ends idle and signed out with the confirmation
      notice; a register never ends in the error status. */
  lemma RegisterAwaitingConfirmation(s: AuthState, p: Option<Session>)
    ensures Reduce(s, RegisterFulfilled(p)).status == Idle
    ensures p.None? ==> var s' := Reduce(s, RegisterFulfilled(p));
      s'.session.None? && s'.user.None? && s'.info == Some(ConfirmEmailInfo)
    ensures p.Some? ==> var s' := Reduce(s, RegisterFulfilled(p));
      s'.user == Some(p.value.user) && s'.info == s.info
  {
  }

  /** Pending then fulfilled without a session leaves only the confirmation notice. */
  lemma RegisterThenConfirm(s: AuthState)
    ensures ReduceAll(s, [RegisterPending, RegisterFulfilled(None)])
      == AuthState(None, None, Idle, None, Some(ConfirmEmailInfo))
  {
    var actions := [RegisterPending, RegisterFulfilled(None)];
    var s1 := Reduce(s, RegisterPending);
    assert actions[1..] == [RegisterFulfilled(None)];
    assert ReduceAll(s, actions) == ReduceAll(s1, [RegisterFulfilled(None)]);
    assert [RegisterFulfilled(None)][1..] == [];
    assert ReduceAll(s1, [RegisterFulfilled(None)]) == ReduceAll(Reduce(s1, RegisterFulfilled(None)), []);
  }

  /** Every rejected case ends in the error status with a message: the thrown one, or the case's
      fixed fallback when the error has none. The session and user stay as they were. */
  lemma RejectedSetsError(s: AuthState, a: Action)
    requires a.RegisterRejected? || a.LoginRejected? || a.LogoutRejected?
    ensures var s' := Reduce(s, a);
      && s'.status == Error && s'.error.Some?
      && s'.session == s.session && s'.user == s.user && s'.info == s.info
    ensures a.message.Some? ==> Reduce(s, a).error == a.message
    ensures a.message.None? ==> Reduce(s, a).error == Some(
      if a.RegisterRejected? then RegisterFailed else if a.LoginRejected? then LoginFailed else LogoutFailed)
  {
  }

  /** A fulfilled logout returns to the initial state, from any state. */
  lemma LogoutResets(s: AuthState)
    ensures Reduce(s, LogoutFulfilled) == Initial
  {
  }

  /** The redux store's slice: each method is one reducer case, assigning the fields it names. */
  class AuthStore {
    var session: Option<Session>
    var user: Option<User>
    var status: Status
    var error: Option<string>
    var info: Option<string>

    function Snapshot(): AuthState
      reads this
    {
      AuthState(session, user, status, error, info)
    }

    constructor()
      ensures Snapshot() == Initial
    {
      session, user, status, error, info := None, None, Idle, None, None;
    }

    method SetSessionReducer(p: Option<Session>)
      modifies this
      ensures Snapshot() == Reduce(old(Snapshot()), SetSession(p))
    {
      session := p;
      user := if p.Some? then Some(p.value.user) else None;
    }

    method ClearMessagesReducer()
      modifies this
      ensures Snapshot() == Reduce(old(Snapshot()), ClearMessages)
    {
      error := None;
      info := None;
    }

    method RegisterPendingCase()
      modifies this
      ensures Snapshot() == Reduce(old(Snapshot()), RegisterPending)
    {
      status := Loading;
      error := None;
      info := None;
    }

    method RegisterFulfilledCase(payload: Option<Session>)
      modifies this
      ensures Snapshot() == Reduce(old(Snapshot()), RegisterFulfilled(payload))
    {
      status := Idle;
      session := payload;
      user := if payload.Some? then Some(payload.value.user) else None;
      if payload.None? {
        info := Some(ConfirmEmailInfo);
      }
    }

    method RegisterRejectedCase(message: Option<string>)
      modifies this
      ensures Snapshot() == Reduce(old(Snapshot()), RegisterRejected(message))
    {
      status := Error;
      error := Some(if message.Some? then message.value else RegisterFailed);
    }

    method LoginPendingCase()
      modifies this
      ensures Snapshot() == Reduce(old(Snapshot()), LoginPending)
    {
      status := Loading;
      error := None;
      info := None;
    }

    method LoginFulfilledCase(payload: Option<Session>)
      modifies this
      ensures Snapshot() == Reduce(old(Snapshot()), LoginFulfilled(payload))
    {
      status := Idle;
      session := payload;
      user := if payload.Some? then Some(payload.value.user) else None;
    }

    method LoginRejectedCase(message: Option<string>)
      modifies this
      ensures Snapshot() == Reduce(old(Snapshot()), LoginRejected(message))
    {
      status := Error;
      error := Some(if message.Some? then message.value else LoginFailed);
    }

    method LogoutFulfilledCase()
      modifies this
      ensures Snapshot() == Reduce(old(Snapshot()), LogoutFulfilled)
    {
      session := None;
      user := None;
      status := Idle;
      error := None;
      info := None;
    }

    method LogoutRejectedCase(message: Option<string>)
      modifies this
      ensures Snapshot() == Reduce(old(Snapshot()), LogoutRejected(message))
    {
      status := Error;
      error := Some(if message.Some? then message.value else LogoutFailed);
    }
  }
}
