/** The sign-in routes (backend/app/routers/auth.py): the `state_store`
    that makes every OAuth `state` single-use, and the redirects of
    `login`, `callback` and `logout`. The token exchange and the Graph
    profile lookup are one abstract outcome; the store of users, the JWT
    encoder and the clock are parameters. Logging is left out. */
module AuthRouter {
  import opened Wrappers
  import opened JsObject
  import Settings
  import CoreAuth

  /** `state_store`: pending states and the address each sign-in returns to. */
  type StateStore = map<string, string>

  /** Python's `v or fallback` for an optional string. */
  function Or(v: Option<string>, fallback: string): (r: string)
    ensures v.Some? && v.value != "" ==> r == v.value
    ensures v.None? || v.value == "" ==> r == fallback
  {
    if v.Some? && v.value != "" then v.value else fallback
  }

  /** An optional string inside an f-string: `None` prints as "None". */
  function Text(v: Option<string>): string {
    if v.Some? then v.value else "None"
  }

  function CallbackUrl(cfg: Settings.Config): string {
    cfg.apiUrl + "/api/v1/auth/callback"
  }

  /** `login`: the state is remembered with its return address, the given
      one or else the front end, and the browser goes to the provider with
      that state. `state` is the output of `secrets.token_urlsafe(32)`,
      which is never empty. */
  function Login(cfg: Settings.Config, urlencode: Object<string> -> string,
                 store: StateStore, redirectUri: Option<string>, state: string): (r: (StateStore, string))
    requires state != ""
    ensures r.0 == store[state := Or(redirectUri, cfg.frontendUrl)]
    ensures r.1 == CoreAuth.AuthorizeEndpoint(cfg) + "?"
      + urlencode(CoreAuth.AuthorizationParams(cfg, CallbackUrl(cfg), state))
  {
    var (url, _) := CoreAuth.AuthorizationUrl(cfg, urlencode, CallbackUrl(cfg), Some(state), state);
    (store[state := Or(redirectUri, cfg.frontendUrl)], url)
  }

  /** How the exchange of the code and the profile lookup ended: with the
      profile, with an `HTTPException` carrying its detail, or with any
      other exception. */
  datatype SignIn = Fetched(info: CoreAuth.UserInfo) | HttpFailed(detail: string) | Crashed

  /** What a callback leaves behind. */
  datatype Landing = Landing(store: StateStore, users: seq<CoreAuth.User>, location: string)

  function LoginError(cfg: Settings.Config, query: string): string {
    cfg.frontendUrl + "/login?error=" + query
  }

  /** The redirect query for an exception other than `HTTPException`. */
  const ServerError := "server_error&error_description=An unexpected error occurred"

  /** The try block of `callback` once the state is consumed. */
  function Complete(cfg: Settings.Config, encode: CoreAuth.Claims -> string, now: int,
                    users: seq<CoreAuth.User>, redirectUri: string, signIn: SignIn): (r: (seq<CoreAuth.User>, string))
    ensures signIn.Crashed? ==> r == (users, LoginError(cfg, ServerError))
    ensures signIn.HttpFailed? ==>
      r == (users, LoginError(cfg, "authentication_failed&error_description=" + signIn.detail))
    ensures signIn.Fetched? && CoreAuth.GetOrCreateUser(users, signIn.info).Err? &&
            CoreAuth.GetOrCreateUser(users, signIn.info).error.Raised? ==>
      r == (users, LoginError(cfg, "authentication_failed&error_description="
                                   + CoreAuth.GetOrCreateUser(users, signIn.info).error.http.detail))
    ensures signIn.Fetched? && CoreAuth.GetOrCreateUser(users, signIn.info) == Err(CoreAuth.CommitFailed) ==>
      r == (users, LoginError(cfg, ServerError))
    ensures signIn.Fetched? && CoreAuth.GetOrCreateUser(users, signIn.info).Ok? ==>
      var (users1, u) := CoreAuth.GetOrCreateUser(users, signIn.info).value;
      r == (users1, redirectUri + "?token=" + CoreAuth.CreateAccessToken(encode, CoreAuth.SessionClaims(u), None, now))
  {
    match signIn
    case Crashed => (users, LoginError(cfg, ServerError))
    case HttpFailed(detail) => (users, LoginError(cfg, "authentication_failed&error_description=" + detail))
    case Fetched(info) =>
      match CoreAuth.GetOrCreateUser(users, info)
      case Err(Raised(e)) => (users, LoginError(cfg, "authentication_failed&error_description=" + e.detail))
      case Err(CommitFailed) => (users, LoginError(cfg, ServerError))
      case Ok((users1, u)) =>
        (users1, redirectUri + "?token=" + CoreAuth.CreateAccessToken(encode, CoreAuth.SessionClaims(u), None, now))
  }

  /** A profile without a usable id is turned away on the login page with
      the detail "Invalid user info", and no user is stored. */
  lemma InvalidProfileRejected(cfg: Settings.Config, encode: CoreAuth.Claims -> string, now: int,
                               users: seq<CoreAuth.User>, redirectUri: string, info: CoreAuth.UserInfo)
    requires !CoreAuth.Truthy(CoreAuth.GetOr(info, "id", None))
    ensures Complete(cfg, encode, now, users, redirectUri, Fetched(info))
      == (users, LoginError(cfg, "authentication_failed&error_description=Invalid user info"))
  {
    assert CoreAuth.GetOrCreateUser(users, info) == Err(CoreAuth.Raised(CoreAuth.InvalidUserInfo));
    assert "authentication_failed&error_description=" + CoreAuth.InvalidUserInfo.detail
      == "authentication_failed&error_description=Invalid user info";
  }

  /** A profile with an id that is already stored, or whose new row the
      table accepts, lands on the return address with a session token
      whose user carries that id and is stored, at most one user being
      added. */
  lemma ProfileWithIdSignsIn(cfg: Settings.Config, encode: CoreAuth.Claims -> string, now: int,
                             users: seq<CoreAuth.User>, redirectUri: string, info: CoreAuth.UserInfo)
    requires CoreAuth.Truthy(CoreAuth.GetOr(info, "id", None))
    requires var id := CoreAuth.GetOr(info, "id", None).value;
      CoreAuth.FindUser(users, id).Some? || CoreAuth.Insertable(users, CoreAuth.NewUser(id, info))
    ensures var r := Complete(cfg, encode, now, users, redirectUri, Fetched(info));
      (r.0 == users || r.0 == users + [CoreAuth.NewUser(CoreAuth.GetOr(info, "id", None).value, info)])
      && exists u :: u in r.0 && u.id == CoreAuth.GetOr(info, "id", None).value
           && r.1 == redirectUri + "?token=" + CoreAuth.CreateAccessToken(encode, CoreAuth.SessionClaims(u), None, now)
  {
    var (users1, u) := CoreAuth.GetOrCreateUser(users, info).value;
    assert u in users1;
  }

  /** A first-time profile whose row the table refuses (an email another
      user has, or a missing email or name) ends on the login page with
      `server_error`, and no user is stored. */
  lemma RefusedRowIsServerError(cfg: Settings.Config, encode: CoreAuth.Claims -> string, now: int,
                                users: seq<CoreAuth.User>, redirectUri: string, info: CoreAuth.UserInfo)
    requires CoreAuth.Truthy(CoreAuth.GetOr(info, "id", None))
    requires var id := CoreAuth.GetOr(info, "id", None).value;
      CoreAuth.FindUser(users, id).None? && !CoreAuth.Insertable(users, CoreAuth.NewUser(id, info))
    ensures Complete(cfg, encode, now, users, redirectUri, Fetched(info)) == (users, LoginError(cfg, ServerError))
  {
  }

  /** `callback`. A provider error wins over everything and touches no
      state; a missing or unknown state is refused and touches none; a known
      state is removed before the exchange, whatever its outcome. */
  function Callback(cfg: Settings.Config, encode: CoreAuth.Claims -> string, now: int,
                    store: StateStore, users: seq<CoreAuth.User>,
                    state: Option<string>, error: Option<string>, errorDescription: Option<string>,
                    signIn: SignIn): (r: Landing)
    ensures error.Some? && error.value != "" ==>
      r == Landing(store, users, LoginError(cfg, error.value + "&error_description=" + Text(errorDescription)))
    ensures (error.None? || error.value == "") && (state.None? || state.value == "" || state.value !in store) ==>
      r == Landing(store, users, LoginError(cfg, "invalid_state"))
    ensures (error.None? || error.value == "") && state.Some? && state.value != "" && state.value in store ==>
      r.store == store - {state.value}
      && (r.users, r.location) == Complete(cfg, encode, now, users, store[state.value], signIn)
  {
    if error.Some? && error.value != "" then
      Landing(store, users, LoginError(cfg, error.value + "&error_description=" + Text(errorDescription)))
    else if state.None? || state.value == "" || state.value !in store then
      Landing(store, users, LoginError(cfg, "invalid_state"))
    else
      var redirectUri := store[state.value];
      var (users1, location) := Complete(cfg, encode, now, users, redirectUri, signIn);
      Landing(store - {state.value}, users1, location)
  }

  /** A state is good for one callback: a second callback presenting it is
      refused as `invalid_state`, however the first one ended. */
  lemma StateIsSingleUse(cfg: Settings.Config, encode: CoreAuth.Claims -> string, now: int, now2: int,
                         store: StateStore, users: seq<CoreAuth.User>, state: string,
                         signIn: SignIn, signIn2: SignIn)
    requires state in store
    ensures var first := Callback(cfg, encode, now, store, users, Some(state), None, None, signIn);
      Callback(cfg, encode, now2, first.store, first.users, Some(state), None, None, signIn2)
        == Landing(first.store, first.users, LoginError(cfg, "invalid_state"))
  {
  }

  /** A login followed by its callback, the provider answering with a
      profile whose user is found or whose new row the table accepts, lands on the return address chosen at login
      with a session token for that profile's user. */
  lemma LoginThenCallback(cfg: Settings.Config, urlencode: Object<string> -> string,
                          encode: CoreAuth.Claims -> string, now: int,
                          store: StateStore, users: seq<CoreAuth.User>,
                          redirectUri: Option<string>, state: string, info: CoreAuth.UserInfo)
    requires state != ""
    requires CoreAuth.GetOrCreateUser(users, info).Ok?
    ensures var (store1, _) := Login(cfg, urlencode, store, redirectUri, state);
      var landing := Callback(cfg, encode, now, store1, users, Some(state), None, None, Fetched(info));
      var (users1, u) := CoreAuth.GetOrCreateUser(users, info).value;
      landing.store == store1 - {state}
      && landing.users == users1
      && landing.location == Or(redirectUri, cfg.frontendUrl) + "?token="
           + CoreAuth.CreateAccessToken(encode, CoreAuth.SessionClaims(u), None, now)
  {
  }

  /** A callback with no state at all, or with a forged one, leaves every
      pending sign-in in place. */
  lemma ForgedStateKeepsStore(cfg: Settings.Config, encode: CoreAuth.Claims -> string, now: int,
                              store: StateStore, users: seq<CoreAuth.User>,
                              state: Option<string>, signIn: SignIn)
    requires state.None? || state.value !in store
    ensures Callback(cfg, encode, now, store, users, state, None, None, signIn).store == store
    ensures Callback(cfg, encode, now, store, users, state, None, None, signIn).users == users
  {
  }

  /** The name of the cookie that carries a browser session. */
  const SessionCookie := "session_token"

  /** A redirect response together with the names of the cookies it
      deletes. */
  datatype Redirect = Redirect(location: string, clearedCookies: seq<string>)

  /** `logout`: back to the given address, or else to the front end, with
      the session cookie deleted. */
  function Logout(cfg: Settings.Config, redirectUri: Option<string>): (r: Redirect)
    ensures redirectUri.Some? && redirectUri.value != "" ==> r.location == redirectUri.value
    ensures redirectUri.None? || redirectUri.value == "" ==> r.location == cfg.frontendUrl
    ensures r.clearedCookies == [SessionCookie]
  {
    Redirect(Or(redirectUri, cfg.frontendUrl), [SessionCookie])
  }

  /** What a browser's cookie jar holds after it follows a redirect. */
  function FollowRedirect(jar: map<string, string>, resp: Redirect): (r: map<string, string>)
    ensures forall c :: c in resp.clearedCookies ==> c !in r
    ensures forall c :: c in jar && c !in resp.clearedCookies ==> c in r && r[c] == jar[c]
    ensures r.Keys <= jar.Keys
  {
    map c | c in jar && c !in resp.clearedCookies :: jar[c]
  }

  /** Following the logout redirect leaves no `session_token` cookie in the
      browser and keeps its other cookies. The bearer token the front end
      holds is not affected. */
  lemma LogoutClearsSessionCookie(cfg: Settings.Config, redirectUri: Option<string>, jar: map<string, string>)
    ensures SessionCookie !in FollowRedirect(jar, Logout(cfg, redirectUri))
    ensures forall c :: c in jar && c != SessionCookie ==>
      c in FollowRedirect(jar, Logout(cfg, redirectUri)) && FollowRedirect(jar, Logout(cfg, redirectUri))[c] == jar[c]
  {
  }

  /** Logout sends the browser where a login with the same `redirect_uri`
      would have sent it back: both fall back to the front end alike. */
  lemma LogoutLandsLikeLogin(cfg: Settings.Config, urlencode: Object<string> -> string,
                             store: StateStore, redirectUri: Option<string>, state: string)
    requires state != ""
    ensures Logout(cfg, redirectUri).location == Login(cfg, urlencode, store, redirectUri, state).0[state]
  {
  }
}
