/** The second, simpler auth store of lib/store.ts: a user and a token set
    together by `login` and cleared by `logout`, with the token mirrored in
    the `token` storage slot. hooks/useAuth.ts derives `isAuthenticated`
    from it as `!!token`. */
module SimpleAuth {
  import opened Domain

  datatype Store = Store(user: Option<User>, token: Option<string>, stored: Option<string>)

  /** The token in memory is the one in the storage slot. */
  predicate Synced(s: Store)
  {
    s.stored == s.token
  }

  /** `!!token`: an empty token does not count as signed in. */
  predicate IsAuthenticated(s: Store)
    ensures Synced(s) ==> (IsAuthenticated(s) <==> Truthy(s.stored))
  {
    Truthy(s.token)
  }

  /** `login(user, token)`: both fields are set and the same token is written
      to the storage slot. */
  function Login(s: Store, user: User, token: string): (r: Store)
    ensures r.user == Some(user) && r.token == Some(token)
    ensures Synced(r)
    ensures IsAuthenticated(r) <==> token != ""
  {
    Store(Some(user), Some(token), Some(token))
  }

  /** `logout`: user and token become null and the stored token is removed. */
  function Logout(s: Store): (r: Store)
    ensures r.user == None && r.token == None
    ensures Synced(r) && r.stored == None
    ensures !IsAuthenticated(r)
  {
    Store(None, None, None)
  }

  /** Logging out undoes any login, and logging in again after a logout
      depends only on the new credentials. */
  lemma LoginLogout(s: Store, u: User, t: string, u2: User, t2: string)
    ensures Logout(Login(s, u, t)) == Logout(s)
    ensures Login(Logout(s), u2, t2) == Login(Login(s, u, t), u2, t2)
  {
  }
}
