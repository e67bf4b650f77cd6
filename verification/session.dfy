/** The session store of store/auth.ts: who is signed in, with the bearer
    token mirrored in the browser's `token` storage slot. Every backend call
    is an oracle parameter (a function from the request to the reply the
    store receives), and each asynchronous operation is one atomic step. */
module Session {
  import opened Domain

  datatype Credentials = Credentials(email: string, password: string)

  datatype Registration = Registration(
    name: string, email: string, password: string, role: string, number: string)

  /** What a successful login hands back. */
  datatype Grant = Grant(user: User, token: string)

  /** How a backend call settles, as the store reads the reply: a reply with
      `success` true, a reply with `success` false, or a thrown error that
      may carry the backend's `message`. */
  datatype Reply<+T> = Succeeded(value: T) | Unsuccessful | Threw(message: Option<string>)

  datatype AuthState = AuthState(
    user: Option<User>, token: Option<string>, isAuthenticated: bool, isLoading: bool)

  /** The in-memory session together with the `token` storage slot. */
  datatype Store = Store(state: AuthState, stored: Option<string>)

  /** How the promise an operation returns settles. */
  datatype Settled = Resolved | Rejected(message: string)

  /** The store after an asynchronous operation, and how its promise settled. */
  datatype Step = Step(store: Store, settled: Settled)

  /** The part of the state written to `auth-storage`. */
  datatype Snapshot = Snapshot(user: Option<User>, token: Option<string>, isAuthenticated: bool)

  const SignedOut := AuthState(None, None, false, false)

  /** The store's consistency: the session is authenticated exactly when it
      holds a token, and a held token is the one in the storage slot. */
  predicate Consistent(st: Store)
  {
    && (st.state.isAuthenticated <==> st.state.token.Some?)
    && (st.state.token.Some? ==> st.stored == st.state.token)
  }

  /** `a` and `b` agree on everything but `isLoading`. */
  predicate SameSession(a: Store, b: Store)
  {
    && a.state.user == b.state.user
    && a.state.token == b.state.token
    && a.state.isAuthenticated == b.state.isAuthenticated
    && a.stored == b.stored
  }

  function WithLoading(st: Store, loading: bool): Store
  {
    st.(state := st.state.(isLoading := loading))
  }

  /** `login`: on a successful reply the token is written to the storage
      slot and the session becomes authenticated; a `success: false` reply
      changes nothing but leaves `isLoading` set; a thrown error clears
      `isLoading` and rejects with the backend message or 'Login failed'. */
  function Login(st: Store, creds: Credentials, login: Credentials -> Reply<Grant>): (r: Step)
    ensures login(creds).Succeeded? ==> (
      && r.store.state.user == Some(login(creds).value.user)
      && r.store.state.token == Some(login(creds).value.token)
      && r.store.stored == r.store.state.token
      && r.store.state.isAuthenticated)
    ensures !login(creds).Succeeded? ==> SameSession(r.store, st)
    ensures r.store.state.isLoading <==> login(creds).Unsuccessful?
    ensures r.settled.Rejected? <==> login(creds).Threw?
    ensures login(creds).Threw? ==>
      r.settled.message == FailureMessage(login(creds).message, "Login failed")
    ensures Consistent(st) ==> Consistent(r.store)
  {
    var pending := WithLoading(st, true);
    match login(creds)
    case Succeeded(g) =>
      Step(Store(AuthState(Some(g.user), Some(g.token), true, false), Some(g.token)), Resolved)
    case Unsuccessful =>
      Step(pending, Resolved)
    case Threw(m) =>
      Step(WithLoading(pending, false), Rejected(FailureMessage(m, "Login failed")))
  }

  /** `register`: a successful registration is followed by `login` with the
      same email and password. A thrown error, including the one the inner
      login throws, clears `isLoading` and rejects with the backend message
      or 'Registration failed'; the inner login's error carries no backend
      message. */
  function Register(
    st: Store, data: Registration,
    register: Registration -> Reply<User>, login: Credentials -> Reply<Grant>): (r: Step)
    ensures var creds := Credentials(data.email, data.password);
      register(data).Succeeded? && !login(creds).Threw? ==> r == Login(st, creds, login)
    ensures var creds := Credentials(data.email, data.password);
      register(data).Succeeded? && login(creds).Threw? ==>
        r.store == Login(st, creds, login).store && r.settled == Rejected("Registration failed")
    ensures register(data).Unsuccessful? ==> r == Step(WithLoading(st, true), Resolved)
    ensures register(data).Threw? ==>
      && SameSession(r.store, st) && !r.store.state.isLoading
      && r.settled == Rejected(FailureMessage(register(data).message, "Registration failed"))
    ensures Consistent(st) ==> Consistent(r.store)
  {
    var pending := WithLoading(st, true);
    match register(data)
    case Succeeded(_) =>
      var inner := Login(pending, Credentials(data.email, data.password), login);
      if inner.settled.Rejected? then
        Step(WithLoading(inner.store, false), Rejected(FailureMessage(None, "Registration failed")))
      else inner
    case Unsuccessful =>
      Step(pending, Resolved)
    case Threw(m) =>
      Step(WithLoading(pending, false), Rejected(FailureMessage(m, "Registration failed")))
  }

  /** `logout`: from any state, the token leaves the storage slot and the
      session is signed out. */
  function Logout(st: Store): (r: Store)
    ensures r.stored == None && !r.state.isAuthenticated && !r.state.isLoading
    ensures r.state.user == None && r.state.token == None
  {
    Store(SignedOut, None)
  }

  /** `checkAuth`: with no usable stored token the session is signed out
      (the slot is left as it is); otherwise the profile is fetched with
      that token, and a failure also empties the slot. `isLoading` is never
      touched. */
  function CheckAuth(st: Store, profile: string -> Option<User>): (r: Store)
    ensures r.state.isLoading == st.state.isLoading
    ensures r.state.isAuthenticated <==> Truthy(st.stored) && profile(st.stored.value).Some?
    ensures r.state.isAuthenticated ==>
      r.state.user == profile(st.stored.value) && r.state.token == st.stored && r.stored == st.stored
    ensures !r.state.isAuthenticated ==> r.state.user == None && r.state.token == None
    ensures !Truthy(st.stored) ==> r.stored == st.stored
    ensures Truthy(st.stored) && profile(st.stored.value).None? ==> r.stored == None
    ensures Consistent(r)
  {
    if !Truthy(st.stored) then
      Store(st.state.(isAuthenticated := false, user := None, token := None), st.stored)
    else
      match profile(st.stored.value)
      case Some(u) => Store(st.state.(user := Some(u), token := st.stored, isAuthenticated := true), st.stored)
      case None => Store(st.state.(user := None, token := None, isAuthenticated := false), None)
  }

  /** The synchronous part of `initialize`: a usable stored token is taken
      as the session's token, optimistically authenticated. */
  function InitializeStart(st: Store): (r: Store)
    ensures !Truthy(st.stored) ==> r == st
    ensures Truthy(st.stored) ==>
      r.state.token == st.stored && r.state.isAuthenticated && r.stored == st.stored
      && r.state.user == st.state.user && r.state.isLoading == st.state.isLoading
  {
    if Truthy(st.stored) then
      st.(state := st.state.(token := st.stored, isAuthenticated := true))
    else st
  }

  /** `initialize` run to completion: the optimistic start followed by the
      `checkAuth` it launches. */
  function Initialize(st: Store, profile: string -> Option<User>): (r: Store)
    ensures !Truthy(st.stored) ==> r == st
    ensures Truthy(st.stored) ==> r == CheckAuth(st, profile)
    ensures Consistent(st) ==> Consistent(r)
  {
    if Truthy(st.stored) then CheckAuth(InitializeStart(st), profile) else st
  }

  /** `partialize`: what is persisted. */
  function Partialize(s: AuthState): (r: Snapshot)
    ensures Restore(r, s.isLoading) == s
  {
    Snapshot(s.user, s.token, s.isAuthenticated)
  }

  /** A state rebuilt from a snapshot and a transient loading flag. */
  function Restore(p: Snapshot, isLoading: bool): AuthState
  {
    AuthState(p.user, p.token, p.isAuthenticated, isLoading)
  }

  /** Running `initialize` a second time changes nothing. */
  lemma InitializeIdempotent(st: Store, profile: string -> Option<User>)
    ensures Initialize(Initialize(st, profile), profile) == Initialize(st, profile)
  {
    if Truthy(st.stored) {
      var r := CheckAuth(st, profile);
      if Truthy(r.stored) {
        assert r.stored == st.stored;
        assert CheckAuth(r, profile) == r;
      }
    }
  }

  /** The result of `logout` does not depend on the state it started from,
      and a later `checkAuth` or `initialize` finds no token to revive. */
  lemma LogoutForgets(a: Store, b: Store, profile: string -> Option<User>)
    ensures Logout(a) == Logout(b)
    ensures CheckAuth(Logout(a), profile) == Logout(a)
    ensures Initialize(Logout(a), profile) == Logout(a)
  {
  }

  /** The user is known whenever the session is authenticated. */
  predicate UserKnown(s: AuthState)
  {
    s.isAuthenticated ==> s.user.Some?
  }

  /** During the optimistic window of `initialize` the session can be
      authenticated while no user is known; the completed `checkAuth`
      always re-establishes that an authenticated session has a user. */
  lemma OptimisticWindow(profile: string -> Option<User>, st: Store)
    ensures var start := InitializeStart(Store(SignedOut, Some("T")));
      start.state.isAuthenticated && start.state.user == None
    ensures UserKnown(CheckAuth(st, profile).state)
    ensures UserKnown(Initialize(st, profile).state) || !Truthy(st.stored)
  {
  }

  /** `partialize` keeps exactly the user, the token and the authenticated
      flag: two states have the same snapshot if and only if they agree on
      those three fields, whatever their `isLoading`. */
  lemma PartializeExactly(a: AuthState, b: AuthState)
    ensures Partialize(a) == Partialize(b) <==>
      a.user == b.user && a.token == b.token && a.isAuthenticated == b.isAuthenticated
  {
  }

  /** The backend as the store sees it. */
  datatype Backend = Backend(
    login: Credentials -> Reply<Grant>,
    register: Registration -> Reply<User>,
    profile: string -> Option<User>)

  datatype Call =
    | DoInitialize
    | DoLogin(creds: Credentials)
    | DoRegister(data: Registration)
    | DoLogout
    | DoCheckAuth

  /** One store operation, run against the backend of the moment. */
  datatype Event = Event(call: Call, backend: Backend)

  function Apply(st: Store, e: Event): Store
  {
    match e.call
    case DoInitialize => Initialize(st, e.backend.profile)
    case DoLogin(creds) => Login(st, creds, e.backend.login).store
    case DoRegister(data) => Register(st, data, e.backend.register, e.backend.login).store
    case DoLogout => Logout(st)
    case DoCheckAuth => CheckAuth(st, e.backend.profile)
  }

  function Run(st: Store, events: seq<Event>): Store
    decreases |events|
  {
    if events == [] then st else Run(Apply(st, events[0]), events[1..])
  }

  /** Every operation keeps the store consistent. */
  lemma ApplyConsistent(st: Store, e: Event)
    requires Consistent(st)
    ensures Consistent(Apply(st, e))
  {
  }

  /** Whatever the backend answers and in whatever order the operations run,
      a store that starts consistent stays consistent: an authenticated
      session always holds a token, and that token is the stored one. */
  lemma {:induction false} RunConsistent(st: Store, events: seq<Event>)
    requires Consistent(st)
    ensures Consistent(Run(st, events))
    ensures Run(st, events).state.isAuthenticated ==> Run(st, events).state.token.Some?
    decreases |events|
  {
    if events != [] {
      ApplyConsistent(st, events[0]);
      RunConsistent(Apply(st, events[0]), events[1..]);
    }
  }
}
