/** The session manager: the provider's `user`/`isAuthenticated`/`loading`
    state over `localStorage`, with its start-up rehydration and the three
    mutators `login`, `logout` and `logoutAllDevices`. `localStorage` is a
    map from keys to strings; `JSON.stringify`/`JSON.parse` of the user are
    `UserCodec.Serialize`/`UserCodec.Parse`. */
module AuthContext {
  import opened Js
  import opened Api
  import UserCodec

  type Store = map<string, string>

  const AccessKey: string := "accessToken"
  const RefreshKey: string := "refreshToken"
  const UserKey: string := "user"

  /** The provider's state together with the storage it reads and writes. */
  datatype Auth = Auth(store: Store, user: Option<User>, isAuthenticated: bool, loading: bool)

  /** `localStorage.getItem(k)`: `None` stands for `null`. */
  function GetItem(s: Store, k: string): Option<string> {
    if k in s then Some(s[k]) else None
  }

  /** The session state agrees with itself: a user exactly when authenticated. */
  predicate Paired(a: Auth) {
    a.user.Some? <==> a.isAuthenticated
  }

  /** The provider's first render over whatever storage the browser kept. */
  function Mounted(persisted: Store): (a: Auth)
    ensures a.store == persisted
    ensures Paired(a) && !a.isAuthenticated
    ensures !ChildrenShown(a)
  {
    Auth(persisted, None, false, true)
  }

  /** The start-up effect finished normally, or `JSON.parse` threw on the
      stored user text. */
  datatype Boot = Booted(auth: Auth) | ParseThrows

  /** Storage from which the start-up effect adopts a `null` user: both
      entries are truthy and the user text is the JSON literal `null`. The
      application itself never writes that text. */
  predicate StoresNullUser(s: Store) {
    Truthy(GetItem(s, UserKey)) && Truthy(GetItem(s, AccessKey)) && s[UserKey] == "null"
  }

  /** The start-up effect: the stored user is parsed and adopted, with the
      flag set, only when both the `user` and the `accessToken` entries are
      truthy, and loading ends in every case. A stored `null` is adopted as
      it is, which leaves the flag set without a user. */
  function Rehydrate(a: Auth): (b: Boot)
    ensures var stored := GetItem(a.store, UserKey);
            var token := GetItem(a.store, AccessKey);
            && (!(Truthy(stored) && Truthy(token)) ==> b == Booted(a.(loading := false)))
            && (Truthy(stored) && Truthy(token) ==>
                  match UserCodec.Parse(stored.value)
                  case Throws => b == ParseThrows
                  case NullValue => b == Booted(a.(user := None, isAuthenticated := true, loading := false))
                  case UserValue(u) => b == Booted(a.(user := Some(u), isAuthenticated := true, loading := false)))
    ensures b.Booted? ==> b.auth.store == a.store && ChildrenShown(b.auth)
    ensures b.Booted? && Paired(a) ==> (Paired(b.auth) <==> !StoresNullUser(a.store))
  {
    var stored := GetItem(a.store, UserKey);
    var token := GetItem(a.store, AccessKey);
    if Truthy(stored) && Truthy(token) then
      match UserCodec.Parse(stored.value)
      case Throws => ParseThrows
      case NullValue => Booted(a.(user := None, isAuthenticated := true, loading := false))
      case UserValue(u) => Booted(a.(user := Some(u), isAuthenticated := true, loading := false))
    else
      Booted(a.(loading := false))
  }

  /** What `setItem('user', JSON.stringify(user))` leaves in storage: an
      absent user stringifies to `undefined`, which storage keeps as text. */
  function StoredUser(u: Option<User>): string {
    match u
    case Some(v) => UserCodec.Serialize(v)
    case None => "undefined"
  }

  /** `login(accessToken, refreshToken, userData)`: three storage writes,
      then the session adopts the user and becomes authenticated. */
  function Login(a: Auth, call: LoginCall): (r: Auth)
    ensures GetItem(r.store, AccessKey) == Some(Text(call.accessToken))
    ensures GetItem(r.store, RefreshKey) == Some(Text(call.refreshToken))
    ensures GetItem(r.store, UserKey) == Some(StoredUser(call.user))
    ensures forall k :: k != AccessKey && k != RefreshKey && k != UserKey ==>
              GetItem(r.store, k) == GetItem(a.store, k)
    ensures r.user == call.user && r.isAuthenticated && r.loading == a.loading
    ensures Paired(r) <==> call.user.Some?
  {
    var s := a.store[AccessKey := Text(call.accessToken)]
                    [RefreshKey := Text(call.refreshToken)]
                    [UserKey := StoredUser(call.user)];
    Auth(s, call.user, true, a.loading)
  }

  /** `logout()`: the server is told which refresh token to revoke, if one is
      stored, and the result is `request`; `after` is the state once the
      `finally` block has run. */
  datatype LogoutResult = LogoutResult(request: Option<string>, after: Auth)

  /** Single-device logout is fail-open: whatever the server answers, local
      storage is emptied and the session is signed out. */
  function Logout(a: Auth, reply: Reply<()>): (r: LogoutResult)
    ensures r.after.store == map[] && r.after.user == None && !r.after.isAuthenticated
    ensures r.after.loading == a.loading
    ensures r.request.Some? <==> Truthy(GetItem(a.store, RefreshKey))
    ensures r.request.Some? ==> r.request.value == a.store[RefreshKey]
  {
    var refresh := GetItem(a.store, RefreshKey);
    var request := if Truthy(refresh) then refresh else None;
    LogoutResult(request, a.(store := map[], user := None, isAuthenticated := false))
  }

  /** Revoke-all is fail-closed: the local session is cleared only when the
      server confirms; on any failure nothing local changes. */
  function LogoutAllDevices(a: Auth, reply: Reply<()>): (r: Auth)
    ensures reply.Ok? ==> r.store == map[] && r.user == None && !r.isAuthenticated && r.loading == a.loading
    ensures !reply.Ok? ==> r == a
    ensures Paired(a) ==> Paired(r)
  {
    if reply.Ok? then a.(store := map[], user := None, isAuthenticated := false) else a
  }

  /** The provider renders its children only once loading is over. */
  predicate ChildrenShown(a: Auth) {
    !a.loading
  }

  /** `useAuth()`: the context value, or the error it throws outside a provider. */
  datatype Hook = Context(auth: Auth) | Throws(message: string)

  function UseAuth(provided: Option<Auth>): (h: Hook)
    ensures h.Throws? <==> provided.None?
    ensures h.Throws? ==> h.message == "useAuth debe ser usado dentro de un AuthProvider"
    ensures h.Context? ==> h.auth == provided.value
  {
    match provided
    case None => Throws("useAuth debe ser usado dentro de un AuthProvider")
    case Some(a) => Context(a)
  }

  /** `logout` reaches the same state whatever the server answers. */
  lemma LogoutIgnoresServer(a: Auth, r1: Reply<()>, r2: Reply<()>)
    ensures Logout(a, r1).after == Logout(a, r2).after
  {
  }

  /** A session written by `login` and read back on the next start: the
      tokens come back verbatim, and the user comes back exactly when the
      access token is non-empty (an empty token is falsy). */
  lemma LoginThenReload(a: Auth, access: string, refresh: string, u: User)
    ensures var stored := Login(a, LoginCall(Some(access), Some(refresh), Some(u))).store;
            && GetItem(stored, AccessKey) == Some(access)
            && GetItem(stored, RefreshKey) == Some(refresh)
            && Rehydrate(Mounted(stored)).Booted?
            && var b := Rehydrate(Mounted(stored)).auth;
               && (b.isAuthenticated <==> access != "")
               && (access != "" ==> b.user == Some(u))
  {
    UserCodec.ParseSerialize(u);
  }

  /** After `logout`, a fresh start finds no session. */
  lemma LogoutThenReload(a: Auth, reply: Reply<()>)
    ensures var b := Rehydrate(Mounted(Logout(a, reply).after.store));
            b.Booted? && !b.auth.isAuthenticated && b.auth.user == None
  {
  }

  /** Every mutator keeps the user and the flag together, except a `login`
      called without a user and a start over a stored `null` user. */
  lemma MutatorsKeepSessionPaired(a: Auth, call: LoginCall, reply: Reply<()>)
    requires Paired(a)
    ensures Paired(Logout(a, reply).after)
    ensures Paired(LogoutAllDevices(a, reply))
    ensures Paired(Login(a, call)) <==> call.user.Some?
    ensures Rehydrate(a).Booted? ==> (Paired(Rehydrate(a).auth) <==> !StoresNullUser(a.store))
  {
  }

  /** A stored `null` user that `JSON.parse` accepts boots a session that is
      authenticated but has no user. */
  lemma NullUserBootsUnpaired(token: string)
    requires token != ""
    ensures var b := Rehydrate(Mounted(map[UserKey := "null", AccessKey := token]));
            && b.Booted? && b.auth.isAuthenticated && b.auth.user == None
            && !Paired(b.auth)
  {
    var s := map[UserKey := "null", AccessKey := token];
    assert GetItem(s, UserKey) == Some("null");
    assert UserCodec.Parse("null") == UserCodec.NullValue;
  }

  /** A consumer rendered under a provider that has booted gets that
      provider's value, with loading over, and user and flag paired unless
      storage held a `null` user; outside any provider the hook throws. */
  lemma ConsumerSeesBootedSession(s: Store)
    ensures UseAuth(None).Throws?
    ensures Rehydrate(Mounted(s)).Booted? ==>
              var h := UseAuth(Some(Rehydrate(Mounted(s)).auth));
              && h.Context? && ChildrenShown(h.auth)
              && (Paired(h.auth) <==> !StoresNullUser(s))
  {
  }
}
