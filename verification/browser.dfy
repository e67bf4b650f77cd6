/** Both auth stores in one browser. store/auth.ts reads and writes the
    `token` storage slot (lines 24, 38, 69, 80, 95); the simple store of
    lib/store.ts only writes it (lines 29 and 35), so a client holds the two
    in-memory states next to ONE slot. The simple store's writes can leave
    the session store holding a token that is no longer stored; what
    survives every interleaving is that the session is authenticated
    exactly when it holds a token. */
module Browser {
  import opened Domain
  import Session
  import SimpleAuth

  datatype Client = Client(
    session: Session.AuthState,
    simpleUser: Option<User>,
    simpleToken: Option<string>,
    stored: Option<string>)

  /** The session store as it sees the shared slot. */
  function SessionView(c: Client): Session.Store
  {
    Session.Store(c.session, c.stored)
  }

  /** The simple store as it sees the shared slot. */
  function SimpleView(c: Client): SimpleAuth.Store
  {
    SimpleAuth.Store(c.simpleUser, c.simpleToken, c.stored)
  }

  datatype Action =
    | SessionOp(event: Session.Event)
    | SimpleLogin(user: User, token: string)
    | SimpleLogout

  /** One operation of either store. Each store changes only its own
      in-memory state and the shared slot; the other store's state is left
      exactly as it was. */
  function Act(c: Client, a: Action): (r: Client)
    ensures a.SessionOp? ==>
      && SessionView(r) == Session.Apply(SessionView(c), a.event)
      && r.simpleUser == c.simpleUser && r.simpleToken == c.simpleToken
    ensures a.SimpleLogin? ==>
      && r.session == c.session
      && SimpleView(r) == SimpleAuth.Login(SimpleView(c), a.user, a.token)
    ensures a.SimpleLogout? ==>
      && r.session == c.session
      && SimpleView(r) == SimpleAuth.Logout(SimpleView(c))
  {
    match a
    case SessionOp(e) =>
      var st := Session.Apply(SessionView(c), e);
      c.(session := st.state, stored := st.stored)
    case SimpleLogin(u, t) =>
      var s := SimpleAuth.Login(SimpleView(c), u, t);
      c.(simpleUser := s.user, simpleToken := s.token, stored := s.stored)
    case SimpleLogout =>
      var s := SimpleAuth.Logout(SimpleView(c));
      c.(simpleUser := s.user, simpleToken := s.token, stored := s.stored)
  }

  function RunAll(c: Client, actions: seq<Action>): Client
    decreases |actions|
  {
    if actions == [] then c else RunAll(Act(c, actions[0]), actions[1..])
  }

  /** The half of the session's consistency that does not mention the slot. */
  predicate FlagMatchesToken(s: Session.AuthState)
  {
    s.isAuthenticated <==> s.token.Some?
  }

  /** Every session operation keeps the flag in step with the token,
      whatever the slot holds. */
  lemma ApplyKeepsFlag(st: Session.Store, e: Session.Event)
    requires FlagMatchesToken(st.state)
    ensures FlagMatchesToken(Session.Apply(st, e).state)
  {
  }

  /** Whatever both stores do, in any order, the session is authenticated
      exactly when it holds a token. */
  lemma {:induction false} RunKeepsFlag(c: Client, actions: seq<Action>)
    requires FlagMatchesToken(c.session)
    ensures FlagMatchesToken(RunAll(c, actions).session)
    decreases |actions|
  {
    if actions != [] {
      if actions[0].SessionOp? {
        ApplyKeepsFlag(SessionView(c), actions[0].event);
      }
      RunKeepsFlag(Act(c, actions[0]), actions[1..]);
    }
  }

  /** The simple store's `logout` empties the shared slot behind the session
      store's back: a session that holds a token stays authenticated with
      it, and the store is no longer consistent. */
  lemma SimpleLogoutStrandsSession(c: Client)
    requires c.session.token.Some?
    ensures Act(c, SimpleLogout).session == c.session
    ensures !Session.Consistent(SessionView(Act(c, SimpleLogout)))
  {
  }

  /** The simple store's `login` with another token overwrites the slot the
      session store reads: a session holding a different token is no longer
      consistent. */
  lemma SimpleLoginOverwritesSession(c: Client, u: User, t: string)
    requires c.session.token.Some? && c.session.token != Some(t)
    ensures Act(c, SimpleLogin(u, t)).session == c.session
    ensures !Session.Consistent(SessionView(Act(c, SimpleLogin(u, t))))
  {
  }

  /** The session store's operations write the slot the simple store mirrors:
      after a session `logout` a signed-in simple store still holds its
      token, which is no longer stored. */
  lemma SessionLogoutStrandsSimple(c: Client, b: Session.Backend)
    requires c.simpleToken.Some?
    ensures !SimpleAuth.Synced(SimpleView(Act(c, SessionOp(Session.Event(Session.DoLogout, b)))))
  {
  }
}
