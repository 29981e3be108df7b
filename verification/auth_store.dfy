/** The session store: the signed-in user and bearer token, mirrored in
    local storage so that a reload can restore them. */
module AuthStore {
  import opened Wrappers
  import opened Types
  import opened Storage

  datatype AuthState = AuthState(user: Option<User>, token: Option<string>, isAuthenticated: bool)

  /** The store's state together with the storage it writes through. */
  datatype Session = Session(state: AuthState, store: LocalStore)

  const Initial := AuthState(None, None, false)

  /** `setAuth`: user and token go to storage and to the state, and the
      session counts as signed in. Theme and orders are not touched. */
  function SetAuth(s: Session, user: User, token: string): (r: Session)
    ensures r.state.user == Some(user) && r.state.token == Some(token) && r.state.isAuthenticated
    ensures Read(r.store.user) == Some(user) && r.store.token == Some(token)
    ensures r.store.theme == s.store.theme && r.store.orders == s.store.orders
  {
    Session(AuthState(Some(user), Some(token), true),
            s.store.(user := Holds(user), token := Some(token)))
  }

  /** `logout`: both keys removed, the state back to its initial value.
      Theme and the local order ledger stay in storage. */
  function Logout(s: Session): (r: Session)
    ensures r.state == Initial
    ensures r.store.token.None? && Read(r.store.user).None?
    ensures r.store.theme == s.store.theme && r.store.orders == s.store.orders
  {
    Session(Initial, s.store.(token := None, user := Empty))
  }

  /** `hydrate`: the state is read back from storage; signed in exactly
      when both a non-empty token and a readable user are stored. */
  function Hydrate(s: Session): (r: Session)
    ensures r.store == s.store
    ensures r.state.token == s.store.token && r.state.user == Read(s.store.user)
    ensures r.state.isAuthenticated <==>
              s.store.token.Some? && s.store.token.value != "" && s.store.user.Holds?
  {
    var token := s.store.token;
    var user := Read(s.store.user);
    Session(AuthState(user, token, token.Some? && token.value != "" && user.Some?), s.store)
  }

  /** A reload right after `setAuth` restores the same user and token; it
      counts as signed in only when the token is not empty, whereas
      `setAuth` itself sets the flag for any token. */
  lemma HydrateAfterSetAuth(s: Session, user: User, token: string, later: AuthState)
    ensures Hydrate(Session(later, SetAuth(s, user, token).store)).state
            == AuthState(Some(user), Some(token), token != "")
  {
  }

  /** A reload after `logout` stays signed out. */
  lemma HydrateAfterLogout(s: Session, later: AuthState)
    ensures Hydrate(Session(later, Logout(s).store)).state == Initial
  {
  }
}
