/**
 * The authentication store (frontend/src/store/authStore.js): the signed-in
 * user, the access and refresh tokens and the authenticated flag, with the
 * two tokens mirrored in the browser's `localStorage`.
 *
 * `localStorage` is a map from keys to strings passed in and returned with
 * the state; `setItem` stores `String(value)`, `getItem` of a missing key is
 * `null`. The store is wrapped in zustand's `persist` under the name
 * `auth-storage`: after every action the `partialize` slice (user and flag)
 * is saved under that key, and when the page loads the saved slice is merged
 * over the freshly computed initial state. That entry is kept apart from the
 * other keys, as `Session.persisted`, because only its decoded slice matters.
 */
module AuthStore {
  import opened Wrappers
  import opened Js

  /** Every `localStorage` entry except the persisted `auth-storage` slice. */
  type Storage = map<string, string>

  const TokenKey: string := "token"
  const RefreshTokenKey: string := "refreshToken"

  datatype AuthState = AuthState(
    user: Option<Record>,
    token: Value,
    refreshToken: Value,
    isAuthenticated: bool)

  /** What the persistence layer saves: the `partialize` projection. */
  datatype Persisted = Persisted(user: Option<Record>, isAuthenticated: bool)

  /**
   * The store's state together with the browser storage it writes: the plain
   * keys, and the persisted slice under `auth-storage` (`None` when absent).
   */
  datatype Session = Session(state: AuthState, storage: Storage, persisted: Option<Persisted>)

  /** The `tokens` argument of `login`. */
  datatype Tokens = Tokens(token: Value, refreshToken: Value)

  /** `localStorage.getItem(key)`. */
  function GetItem(storage: Storage, key: string): (r: Value)
    ensures key in storage ==> r == Str(storage[key])
    ensures key !in storage ==> r == Null
  {
    if key in storage then Str(storage[key]) else Null
  }

  /** `localStorage.setItem(key, value)`. */
  function SetItem(storage: Storage, key: string, value: Value): (r: Storage)
    ensures r.Keys == storage.Keys + {key}
    ensures r[key] == ToStr(value)
    ensures forall k :: k in storage && k != key ==> r[k] == storage[k]
  {
    storage[key := ToStr(value)]
  }

  /**
   * The state the store's initializer computes from the storage found at
   * start-up, before the persisted slice is merged over it (see `Reload`).
   */
  function InitialState(storage: Storage): (r: AuthState)
    ensures r.user.None?
    ensures r.isAuthenticated <==> TokenKey in storage && storage[TokenKey] != ""
    ensures r.isAuthenticated <==> r.token != Null
    ensures r.isAuthenticated ==> r.token == Str(storage[TokenKey])
    ensures r.refreshToken != Null ==>
      RefreshTokenKey in storage && storage[RefreshTokenKey] != "" && r.refreshToken == Str(storage[RefreshTokenKey])
    ensures RefreshTokenKey in storage && storage[RefreshTokenKey] != "" ==>
      r.refreshToken == Str(storage[RefreshTokenKey])
  {
    AuthState(
      None,
      Or(GetItem(storage, TokenKey), Null),
      Or(GetItem(storage, RefreshTokenKey), Null),
      Truthy(GetItem(storage, TokenKey)))
  }

  /** `partialize`: the slice of the state that is persisted. */
  function Partialize(st: AuthState): (r: Persisted)
    ensures r.user == st.user && r.isAuthenticated == st.isAuthenticated
  {
    Persisted(st.user, st.isAuthenticated)
  }

  /** zustand's `set` under `persist`: the new state, with its slice saved. */
  function Commit(st: AuthState, storage: Storage): (r: Session)
    ensures r.state == st && r.storage == storage
    ensures r.persisted == Some(Persisted(st.user, st.isAuthenticated))
  {
    Session(st, storage, Some(Partialize(st)))
  }

  /** The saved slice agrees with the live state. */
  predicate InSync(s: Session) {
    s.persisted == Some(Partialize(s.state))
  }

  function Login(s: Session, userData: Option<Record>, tokens: Tokens): (r: Session)
    ensures r.state == AuthState(userData, tokens.token, tokens.refreshToken, true)
    ensures r.storage.Keys == s.storage.Keys + {TokenKey, RefreshTokenKey}
    ensures r.storage[TokenKey] == ToStr(tokens.token)
    ensures r.storage[RefreshTokenKey] == ToStr(tokens.refreshToken)
    ensures forall k :: k in s.storage && k != TokenKey && k != RefreshTokenKey ==> r.storage[k] == s.storage[k]
    ensures r.persisted == Some(Persisted(userData, true))
  {
    var storage := SetItem(SetItem(s.storage, TokenKey, tokens.token), RefreshTokenKey, tokens.refreshToken);
    Commit(AuthState(userData, tokens.token, tokens.refreshToken, true), storage)
  }

  function Logout(s: Session): (r: Session)
    ensures r.state.user.None? && r.state.token == Null && r.state.refreshToken == Null
    ensures !r.state.isAuthenticated
    ensures TokenKey !in r.storage && RefreshTokenKey !in r.storage
    ensures forall k :: k in s.storage && k != TokenKey && k != RefreshTokenKey <==> k in r.storage
    ensures forall k :: k in r.storage ==> r.storage[k] == s.storage[k]
    ensures r.persisted == Some(Persisted(None, false))
  {
    Commit(AuthState(None, Null, Null, false), s.storage - {TokenKey, RefreshTokenKey})
  }

  /** `user: { ...state.user, ...userData }`. */
  function UpdateUser(s: Session, userData: Option<Record>): (r: Session)
    ensures r.state.user.Some?
    ensures forall k :: k in Spread(userData) ==> k in r.state.user.value && r.state.user.value[k] == Spread(userData)[k]
    ensures forall k :: k !in Spread(userData) ==> (k in r.state.user.value <==> k in Spread(s.state.user))
    ensures forall k :: k !in Spread(userData) && k in Spread(s.state.user) ==>
      r.state.user.value[k] == Spread(s.state.user)[k]
    ensures s.state.user.None? ==> r.state.user == Some(Spread(userData))
    ensures r.state.token == s.state.token && r.state.refreshToken == s.state.refreshToken
    ensures r.state.isAuthenticated == s.state.isAuthenticated
    ensures r.storage == s.storage
    ensures r.persisted == Some(Persisted(r.state.user, s.state.isAuthenticated))
  {
    assert Assign(map[], Spread(userData)) == Spread(userData);
    Commit(s.state.(user := Some(Assign(Spread(s.state.user), Spread(userData)))), s.storage)
  }

  /**
   * `setTokens(token, refreshToken)`: the access token is always stored; the
   * refresh token is stored only when truthy, while the state's refresh token
   * becomes `refreshToken || undefined`.
   */
  function SetTokens(s: Session, token: Value, refreshToken: Value): (r: Session)
    ensures r.state.user == s.state.user && r.state.isAuthenticated == s.state.isAuthenticated
    ensures r.state.token == token
    ensures Truthy(refreshToken) ==> r.state.refreshToken == refreshToken
    ensures !Truthy(refreshToken) ==> r.state.refreshToken == Undefined
    ensures TokenKey in r.storage && r.storage[TokenKey] == ToStr(token)
    ensures Truthy(refreshToken) ==> RefreshTokenKey in r.storage && r.storage[RefreshTokenKey] == ToStr(refreshToken)
    ensures !Truthy(refreshToken) ==>
      (RefreshTokenKey in r.storage <==> RefreshTokenKey in s.storage)
      && (RefreshTokenKey in s.storage ==> r.storage[RefreshTokenKey] == s.storage[RefreshTokenKey])
    ensures forall k :: k != TokenKey && k != RefreshTokenKey ==>
      (k in r.storage <==> k in s.storage) && (k in s.storage ==> r.storage[k] == s.storage[k])
    ensures r.persisted == Some(Persisted(s.state.user, s.state.isAuthenticated))
  {
    var withToken := SetItem(s.storage, TokenKey, token);
    var storage := if Truthy(refreshToken) then SetItem(withToken, RefreshTokenKey, refreshToken) else withToken;
    Commit(s.state.(token := token, refreshToken := Or(refreshToken, Undefined)), storage)
  }

  /**
   * The state after a page load: the initializer's state, with the saved
   * slice's user and flag merged over it when one was saved.
   */
  function Reload(s: Session): (r: AuthState)
    ensures r.token == InitialState(s.storage).token
    ensures r.refreshToken == InitialState(s.storage).refreshToken
    ensures s.persisted.None? ==> r == InitialState(s.storage)
    ensures s.persisted.Some? ==> r.user == s.persisted.value.user && r.isAuthenticated == s.persisted.value.isAuthenticated
  {
    var init := InitialState(s.storage);
    match s.persisted
    case None => init
    case Some(p) => init.(user := p.user, isAuthenticated := p.isAuthenticated)
  }

  /** The persisted slice never depends on the tokens. */
  lemma PartializeIgnoresTokens(a: AuthState, b: AuthState)
    requires a.user == b.user && a.isAuthenticated == b.isAuthenticated
    ensures Partialize(a) == Partialize(b)
  {
  }

  /** Refreshing the tokens never changes what is persisted. */
  lemma SetTokensKeepsPersisted(s: Session, token: Value, refreshToken: Value)
    ensures SetTokens(s, token, refreshToken).persisted == Some(Partialize(s.state))
  {
  }

  /** Every action leaves the saved slice in step with the state, so a reload restores the user and the flag. */
  lemma ActionsKeepInSync(s: Session, userData: Option<Record>, tokens: Tokens, token: Value, refreshToken: Value)
    ensures InSync(Login(s, userData, tokens)) && InSync(Logout(s))
    ensures InSync(UpdateUser(s, userData)) && InSync(SetTokens(s, token, refreshToken))
    ensures Partialize(Reload(Login(s, userData, tokens))) == Partialize(Login(s, userData, tokens).state)
    ensures Partialize(Reload(UpdateUser(s, userData))) == Partialize(UpdateUser(s, userData).state)
  {
  }

  /** Logging out forgets everything about the previous session. */
  lemma LogoutForgets(s: Session, t: Session)
    requires s.storage - {TokenKey, RefreshTokenKey} == t.storage - {TokenKey, RefreshTokenKey}
    ensures Logout(s) == Logout(t)
  {
  }

  /** Logging out twice is logging out once. */
  lemma LogoutIdempotent(s: Session)
    ensures Logout(Logout(s)) == Logout(s)
  {
    assert Logout(s).storage - {TokenKey, RefreshTokenKey} == Logout(s).storage;
  }

  /** Updating the user twice with the same fields is updating once. */
  lemma UpdateUserIdempotent(s: Session, userData: Option<Record>)
    ensures UpdateUser(UpdateUser(s, userData), userData) == UpdateUser(s, userData)
  {
    var once := UpdateUser(s, userData).state.user.value;
    assert Assign(once, Spread(userData)) == once;
  }

  /**
   * A reload after logging in with a non-empty string token restores the
   * user, the flag and the token; the refresh token survives too when it is
   * a non-empty string.
   */
  lemma ReloadAfterLogin(s: Session, userData: Option<Record>, token: string, refreshToken: string)
    requires token != ""
    ensures Reload(Login(s, userData, Tokens(Str(token), Str(refreshToken))))
         == AuthState(userData, Str(token), if refreshToken == "" then Null else Str(refreshToken), true)
  {
  }

  /** A reload after logging out starts unauthenticated, with no user and no tokens. */
  lemma ReloadAfterLogout(s: Session)
    ensures Reload(Logout(s)) == AuthState(None, Null, Null, false)
  {
  }

  /**
   * After `setTokens` with a non-empty string token, a reload reads that
   * token back, but the user and the flag come from the saved slice, not
   * from the token's presence.
   */
  lemma ReloadAfterSetTokens(s: Session, token: string, refreshToken: Value)
    requires token != ""
    ensures Reload(SetTokens(s, Str(token), refreshToken)).token == Str(token)
    ensures Reload(SetTokens(s, Str(token), refreshToken)).isAuthenticated == s.state.isAuthenticated
    ensures Reload(SetTokens(s, Str(token), refreshToken)).user == s.state.user
  {
  }

  /**
   * Setting tokens after a logout stores a token, yet a reload still starts
   * signed out: the saved flag overrides the initializer's token check.
   */
  lemma SetTokensAfterLogoutStaysSignedOut(s: Session, token: string, refreshToken: Value)
    requires token != ""
    ensures InitialState(SetTokens(Logout(s), Str(token), refreshToken).storage).isAuthenticated
    ensures !Reload(SetTokens(Logout(s), Str(token), refreshToken)).isAuthenticated
  {
  }
}
