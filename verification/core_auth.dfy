/** The sign-in helpers of the back end (backend/app/core/auth.py): JWT
    claim building, the authorization URL, user get-or-create and the two
    token gates. JWT signing and decoding, URL encoding, random state and
    the clock are parameters; Python dicts are ordered entry lists. */
module CoreAuth {
  import opened Wrappers
  import opened JsObject
  import Settings

  /** A JSON value as the claims and the decoded payload hold them. */
  datatype Json = JNull | JStr(s: string) | JInt(n: int)

  type Claims = Object<Json>

  datatype HttpError = HttpError(code: int, detail: string)

  const InvalidCredentials := HttpError(401, "Could not validate credentials")
  const NotAuthenticated := HttpError(401, "Not authenticated")
  const UserNotFound := HttpError(401, "User not found")
  const InvalidUserInfo := HttpError(401, "Invalid user info")

  /** The token lifetime in seconds when the caller gives none. */
  const DefaultLifetime: int := Settings.AccessTokenExpireMinutes * 60

  // ---- create_access_token -----------------------------------------------

  /** The claims `create_access_token` signs: a copy of the input with `exp`
      set to `now` plus the given lifetime, or plus the default lifetime
      when none (or a zero one) is given. Times are in seconds. */
  function AccessClaims(data: Claims, delta: Option<int>, now: int): (c: Claims)
    ensures Get(c, "exp") == Some(JInt(now + if delta.Some? && delta.value != 0 then delta.value else DefaultLifetime))
    ensures forall k :: k != "exp" ==> Get(c, k) == Get(data, k)
    ensures "exp" in Keys(data) ==> Keys(c) == Keys(data)
    ensures "exp" !in Keys(data) ==> Keys(c) == Keys(data) + ["exp"]
  {
    var lifetime := if delta.Some? && delta.value != 0 then delta.value else DefaultLifetime;
    if "exp" in Keys(data) then Set(data, "exp", JInt(now + lifetime))
    else SetNewKey(data, "exp", JInt(now + lifetime)); Set(data, "exp", JInt(now + lifetime))
  }

  /** `create_access_token`: the signed claims. */
  function CreateAccessToken(encode: Claims -> string, data: Claims, delta: Option<int>, now: int): (token: string)
    ensures token == encode(AccessClaims(data, delta, now))
  {
    encode(AccessClaims(data, delta, now))
  }

  /** Without a lifetime a token expires eight days after it is issued. */
  lemma DefaultExpiry(data: Claims, now: int)
    ensures Get(AccessClaims(data, None, now), "exp") == Some(JInt(now + 691200))
    ensures Get(AccessClaims(data, Some(0), now), "exp") == Some(JInt(now + 691200))
  {
    assert DefaultLifetime == 691200;
  }

  // ---- get_authorization_url -------------------------------------------------

  const Scope := "openid profile email User.Read"

  function AuthorizeEndpoint(cfg: Settings.Config): string {
    "https://login.microsoftonline.com/" + cfg.tenantId + "/oauth2/v2.0/authorize"
  }

  /** The query parameters, in the order they are encoded. */
  function AuthorizationParams(cfg: Settings.Config, redirectUri: string, state: string): (p: Object<string>)
    ensures Keys(p) == ["client_id", "response_type", "redirect_uri", "response_mode", "scope", "state"]
  {
    [Entry("client_id", cfg.clientId), Entry("response_type", "code"),
     Entry("redirect_uri", redirectUri), Entry("response_mode", "query"),
     Entry("scope", Scope), Entry("state", state)]
  }

  /** Each parameter carries its value: the application's client id, an
      authorization-code request answered in the query string for the
      fixed scope, and the given return address and state. */
  lemma AuthorizationParamsValues(cfg: Settings.Config, redirectUri: string, state: string)
    ensures var p := AuthorizationParams(cfg, redirectUri, state);
      Get(p, "client_id") == Some(cfg.clientId) && Get(p, "response_type") == Some("code")
      && Get(p, "redirect_uri") == Some(redirectUri) && Get(p, "response_mode") == Some("query")
      && Get(p, "scope") == Some(Scope) && Get(p, "state") == Some(state)
  {
    var p := AuthorizationParams(cfg, redirectUri, state);
    ParamAt(p, 0);
    ParamAt(p, 1);
    ParamAt(p, 2);
    ParamAt(p, 3);
    ParamAt(p, 4);
    ParamAt(p, 5);
  }

  /** A read of the parameter at `i` finds it: no earlier key equals it. */
  lemma ParamAt(p: Object<string>, i: nat)
    requires Keys(p) == ["client_id", "response_type", "redirect_uri", "response_mode", "scope", "state"]
    requires i < 6
    ensures Get(p, p[i].key) == Some(p[i].value)
  {
    forall j | 0 <= j < i
      ensures p[j].key != p[i].key
    {
      ParamKeysDiffer(Keys(p), j, i);
    }
    GetFirst(p, p[i].key, i);
  }

  lemma ParamKeysDiffer(ks: seq<string>, j: nat, i: nat)
    requires ks == ["client_id", "response_type", "redirect_uri", "response_mode", "scope", "state"]
    requires j < i < 6
    ensures ks[j] != ks[i]
  {
    if j == 0 {
      assert ks[0][0] == 'c';
      assert ks[i][0] != 'c';
    } else if i == 2 {
      assert ks[1][2] != ks[2][2];
    } else if i == 3 {
      assert ks[j][2] != ks[3][2] || ks[j][9] != ks[3][9];
    } else if i == 4 || j == 4 {
      assert ks[j][1] != ks[i][1];
    } else {
      assert ks[j][0] != ks[i][0];
    }
  }

  /** `get_authorization_url`: the URL and the state it carries, which is
      the given one unless that is missing or empty. */
  function AuthorizationUrl(cfg: Settings.Config, urlencode: Object<string> -> string,
                            redirectUri: string, state: Option<string>, generated: string): (r: (string, string))
    ensures r.1 == if state.Some? && state.value != "" then state.value else generated
    ensures r.0 == AuthorizeEndpoint(cfg) + "?" + urlencode(AuthorizationParams(cfg, redirectUri, r.1))
  {
    var st := if state.Some? && state.value != "" then state.value else generated;
    (AuthorizeEndpoint(cfg) + "?" + urlencode(AuthorizationParams(cfg, redirectUri, st)), st)
  }

  /** The URL carries the state that `get_authorization_url` returns, so
      the caller can match the answer to its request. */
  lemma AuthorizationUrlCarriesState(cfg: Settings.Config, urlencode: Object<string> -> string,
                                     redirectUri: string, state: Option<string>, generated: string)
    ensures var (url, st) := AuthorizationUrl(cfg, urlencode, redirectUri, state, generated);
      url == AuthorizeEndpoint(cfg) + "?" + urlencode(AuthorizationParams(cfg, redirectUri, st))
      && Get(AuthorizationParams(cfg, redirectUri, st), "state") == Some(st)
  {
    var st := AuthorizationUrl(cfg, urlencode, redirectUri, state, generated).1;
    var p := AuthorizationParams(cfg, redirectUri, st);
    assert Keys(p)[5] == "state" && Keys(p)[..5] == ["client_id", "response_type", "redirect_uri", "response_mode", "scope"];
    forall j | 0 <= j < 5
      ensures p[j].key != "state"
    {
      assert p[j].key[1] != 't';
    }
    GetFirst(p, "state", 5);
  }

  // ---- get_or_create_user ------------------------------------------------------

  /** A row of the `users` table. `email` and `name` carry what the insert
      would write, `None` being Python's `None`. */
  datatype User = User(id: string, email: Option<string>, name: Option<string>, role: string)

  /** The Graph profile: each field is a string or `null` (`None`). */
  type UserInfo = Object<Option<string>>

  /** `d.get(k, default)`. */
  function GetOr(d: UserInfo, k: string, fallback: Option<string>): Option<string> {
    match Get(d, k)
    case None => fallback
    case Some(v) => v
  }

  /** Python truthiness of an optional string. */
  predicate Truthy(v: Option<string>) {
    v.Some? && v.value != ""
  }

  function FindUser(users: seq<User>, id: string): (r: Option<User>)
    ensures r.Some? ==> r.value in users && r.value.id == id
    ensures r.None? ==> forall i :: 0 <= i < |users| ==> users[i].id != id
  {
    if |users| == 0 then None
    else if users[0].id == id then Some(users[0])
    else FindUser(users[1..], id)
  }

  /** The user inserted for a profile seen for the first time. */
  function NewUser(id: string, info: UserInfo): (u: User)
    ensures u.id == id && u.role == "user"
    ensures Truthy(GetOr(info, "mail", None)) ==> u.email == GetOr(info, "mail", None)
    ensures !Truthy(GetOr(info, "mail", None)) ==> u.email == GetOr(info, "userPrincipalName", Some(""))
    ensures u.name == GetOr(info, "displayName", Some(""))
  {
    var mail := GetOr(info, "mail", None);
    User(id, if Truthy(mail) then mail else GetOr(info, "userPrincipalName", Some("")),
         GetOr(info, "displayName", Some("")), "user")
  }

  /** How `get_or_create_user` can fail: with an `HTTPException`, or with
      the database refusing the commit of the new row. */
  datatype Failure = Raised(http: HttpError) | CommitFailed

  /** The constraints of the `users` table a new row must meet: `email`
      and `name` are NOT NULL, and `email` is unique. The id is checked by
      the lookup that precedes the insert. */
  predicate Insertable(users: seq<User>, u: User) {
    u.email.Some? && u.name.Some? && forall v :: v in users ==> v.email != u.email
  }

  /** The `users` table as the database keeps it: ids and emails unique,
      no NULL email or name. */
  ghost predicate ValidTable(users: seq<User>) {
    (forall i :: 0 <= i < |users| ==> users[i].email.Some? && users[i].name.Some?)
    && forall i, j :: 0 <= i < j < |users| ==> users[i].id != users[j].id && users[i].email != users[j].email
  }

  /** `get_or_create_user`: 401 without a usable id and nothing inserted;
      an existing user is returned as stored; otherwise a new one is added
      when the table accepts it, and the commit fails when it does not. */
  function GetOrCreateUser(users: seq<User>, info: UserInfo): (r: Result<(seq<User>, User), Failure>)
    ensures !Truthy(GetOr(info, "id", None)) <==> r == Err(Raised(InvalidUserInfo))
    ensures r.Err? && r.error.Raised? ==> r.error.http == InvalidUserInfo
    ensures r.Ok? ==> r.value.1.id == GetOr(info, "id", None).value
    ensures r.Ok? && FindUser(users, r.value.1.id).Some? ==>
      r.value == (users, FindUser(users, r.value.1.id).value)
    ensures r.Ok? && FindUser(users, r.value.1.id).None? ==>
      r.value.0 == users + [r.value.1] && r.value.1 == NewUser(r.value.1.id, info)
      && Insertable(users, r.value.1)
    ensures Truthy(GetOr(info, "id", None)) && FindUser(users, GetOr(info, "id", None).value).None? ==>
      (r == Err(CommitFailed) <==> !Insertable(users, NewUser(GetOr(info, "id", None).value, info)))
  {
    var id := GetOr(info, "id", None);
    if !Truthy(id) then Err(Raised(InvalidUserInfo))
    else match FindUser(users, id.value)
      case Some(u) => Ok((users, u))
      case None =>
        var u := NewUser(id.value, info);
        if Insertable(users, u) then Ok((users + [u], u)) else Err(CommitFailed)
  }

  /** A successful lookup-or-insert keeps the table valid: the new row's id
      was not found, and its email and name meet the constraints. */
  lemma GetOrCreateKeepsTable(users: seq<User>, info: UserInfo)
    requires ValidTable(users)
    requires GetOrCreateUser(users, info).Ok?
    ensures ValidTable(GetOrCreateUser(users, info).value.0)
  {
    var (users1, u) := GetOrCreateUser(users, info).value;
    if FindUser(users, u.id).None? {
      forall i, j | 0 <= i < j < |users1|
        ensures users1[i].id != users1[j].id && users1[i].email != users1[j].email
      {
        if j == |users| {
          assert users1[i] == users[i] && users1[i] in users;
        }
      }
    }
  }

  /** A first-time profile whose email another user already has is
      refused by the database, and nothing is stored. */
  lemma DuplicateEmailFails(users: seq<User>, info: UserInfo, id: string, mail: string, v: User)
    requires GetOr(info, "id", None) == Some(id) && id != "" && FindUser(users, id).None?
    requires GetOr(info, "mail", None) == Some(mail) && mail != ""
    requires v in users && v.email == Some(mail)
    ensures GetOrCreateUser(users, info) == Err(CommitFailed)
  {
    assert NewUser(id, info).email == Some(mail);
  }

  /** Signing in twice with the same profile creates the user once: the
      second call finds and returns the first call's user. */
  lemma GetOrCreateOnce(users: seq<User>, info: UserInfo)
    requires GetOrCreateUser(users, info).Ok?
    ensures var (users1, u) := GetOrCreateUser(users, info).value;
      GetOrCreateUser(users1, info) == Ok((users1, u))
  {
    var (users1, u) := GetOrCreateUser(users, info).value;
    if FindUser(users, u.id).None? {
      FindAppended(users, u);
    }
  }

  lemma {:induction false} FindAppended(users: seq<User>, u: User)
    requires FindUser(users, u.id).None?
    ensures FindUser(users + [u], u.id) == Some(u)
  {
    if |users| > 0 {
      assert (users + [u])[1..] == users[1..] + [u];
      FindAppended(users[1..], u);
    } else {
      assert users + [u] == [u];
    }
  }

  /** A profile without `mail` is registered under its principal name;
      one without either gets an empty email. */
  lemma EmailFallback(id: string, upn: string)
    ensures NewUser(id, [Entry("userPrincipalName", Some(upn))]).email == Some(upn)
    ensures NewUser(id, [Entry("mail", Some("")), Entry("displayName", None)]).email == Some("")
    ensures NewUser(id, [Entry("mail", Some("")), Entry("displayName", None)]).name == None
  {
    var info: UserInfo := [Entry("mail", Some("")), Entry("displayName", None)];
    assert "mail" != "displayName";
    GetFirst(info, "displayName", 1);
    assert Get(info, "userPrincipalName").None? by {
      assert Keys(info) == ["mail", "displayName"];
      assert "userPrincipalName" != "mail" && "userPrincipalName" != "displayName";
    }
  }

  // ---- verify_token and get_current_user -------------------------------------------

  /** `payload.get(k)`: absent and `null` both read as `None`. */
  function Claim(payload: Claims, k: string): Json {
    match Get(payload, k)
    case None => JNull
    case Some(v) => v
  }

  /** `verify_token`: a payload that decodes and carries a non-null `sub`
      passes; anything else is 401. `decode` returns `None` where the JWT
      library raises. */
  function VerifyToken(decode: string -> Option<Claims>, token: string): (r: Result<Claims, HttpError>)
    ensures r.Ok? <==> decode(token).Some? && Claim(decode(token).value, "sub") != JNull
    ensures r.Ok? ==> r.value == decode(token).value
    ensures r.Err? ==> r.error == InvalidCredentials
  {
    match decode(token)
    case None => Err(InvalidCredentials)
    case Some(payload) =>
      if Claim(payload, "sub") == JNull then Err(InvalidCredentials) else Ok(payload)
  }

  /** `get_current_user`: no token is "Not authenticated", a bad token is
      "Could not validate credentials", and a subject naming no user is
      "User not found". */
  function GetCurrentUser(decode: string -> Option<Claims>, users: seq<User>, token: Option<string>): (r: Result<User, HttpError>)
    ensures token.None? || token.value == "" ==> r == Err(NotAuthenticated)
    ensures r.Ok? ==>
      (token.Some? && VerifyToken(decode, token.value).Ok?
       && Claim(VerifyToken(decode, token.value).value, "sub") == JStr(r.value.id)
       && r.value in users)
    ensures token.Some? && token.value != "" && VerifyToken(decode, token.value).Err? ==> r == Err(InvalidCredentials)
    ensures token.Some? && token.value != "" && VerifyToken(decode, token.value).Ok?
      && (forall u :: u in users ==> Claim(VerifyToken(decode, token.value).value, "sub") != JStr(u.id))
      ==> r == Err(UserNotFound)
  {
    if token.None? || token.value == "" then Err(NotAuthenticated)
    else match VerifyToken(decode, token.value)
      case Err(e) => Err(e)
      case Ok(payload) =>
        match Claim(payload, "sub")
        case JStr(id) =>
          (match FindUser(users, id)
           case None => Err(UserNotFound)
           case Some(u) => Ok(u))
        case _ => Err(UserNotFound)
  }

  /** The token issued at sign-in opens the gate for its user: if decoding
      returns what was signed, `get_current_user` finds the user. */
  lemma IssuedTokenAuthenticates(encode: Claims -> string, decode: string -> Option<Claims>,
                                 users: seq<User>, u: User, now: int)
    requires u in users
    requires forall i, j :: 0 <= i < j < |users| ==> users[i].id != users[j].id
    requires var data := SessionClaims(u);
      decode(CreateAccessToken(encode, data, None, now)) == Some(AccessClaims(data, None, now))
    requires CreateAccessToken(encode, SessionClaims(u), None, now) != ""
    ensures GetCurrentUser(decode, users, Some(CreateAccessToken(encode, SessionClaims(u), None, now))) == Ok(u)
  {
    var data := SessionClaims(u);
    var token := CreateAccessToken(encode, data, None, now);
    IssuedTokenVerifies(decode, u, now, token);
    var k :| 0 <= k < |users| && users[k] == u;
    FindUnique(users, u.id, k);
    SubjectAuthenticates(decode, users, token, AccessClaims(data, None, now), u);
  }

  /** A token that verifies, whose subject names a stored user, yields that user. */
  lemma SubjectAuthenticates(decode: string -> Option<Claims>, users: seq<User>, token: string, c: Claims, u: User)
    requires token != ""
    requires VerifyToken(decode, token) == Ok(c)
    requires Claim(c, "sub") == JStr(u.id)
    requires FindUser(users, u.id) == Some(u)
    ensures GetCurrentUser(decode, users, Some(token)) == Ok(u)
  {
  }

  /** The claims of a session token carry the user's id as `sub`. */
  lemma IssuedTokenVerifies(decode: string -> Option<Claims>, u: User, now: int, token: string)
    requires decode(token) == Some(AccessClaims(SessionClaims(u), None, now))
    ensures VerifyToken(decode, token) == Ok(AccessClaims(SessionClaims(u), None, now))
    ensures Claim(AccessClaims(SessionClaims(u), None, now), "sub") == JStr(u.id)
  {
    assert "sub" != "exp";
  }

  lemma {:induction false} FindUnique(users: seq<User>, id: string, k: int)
    requires forall i, j :: 0 <= i < j < |users| ==> users[i].id != users[j].id
    requires 0 <= k < |users| && users[k].id == id
    ensures FindUser(users, id) == Some(users[k])
  {
    if k > 0 {
      assert users[0].id != id;
      FindUnique(users[1..], id, k - 1);
    }
  }

  /** The claims the sign-in callback puts in a session token. */
  function SessionClaims(u: User): (c: Claims)
    ensures Get(c, "sub") == Some(JStr(u.id))
  {
    [Entry("sub", JStr(u.id)), Entry("email", if u.email.Some? then JStr(u.email.value) else JNull),
     Entry("role", JStr(u.role))]
  }
}
