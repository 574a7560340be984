/** Bearer-token handling of app/auth/auth_router.py: the claims an access token
    carries, the credential check at login, and the validation of a decoded
    token. Signing, signature checking and bcrypt are foreign libraries: the
    decoded payload and the password verifier come in as inputs. The clock is
    an integer count of milliseconds: the service compares full-precision
    datetimes, while the `exp` claim and the library's expiry check work in
    whole seconds. */
module Tokens {
  import opened Outcomes
  import opened UserModel

  /** The claims `create_access_token` encodes: `sub`, `id`, `is_superuser`, `exp`. */
  datatype Claims = Claims(sub: string, id: UserId, isSuperuser: bool, exp: int)

  /** Login tokens live 20 minutes. */
  const AccessTokenMinutes: nat := 20
  const AccessTokenTtl: nat := AccessTokenMinutes * 60

  const MillisPerSecond: nat := 1000

  /** The token's `exp` is the issue instant plus the lifetime, cut down to the
      whole second it falls in when the library encodes it. */
  function CreateAccessToken(username: string, userId: UserId, isSuperuser: bool, expiresDelta: int, nowMs: int): Claims {
    Claims(username, userId, isSuperuser, nowMs / MillisPerSecond + expiresDelta)
  }

  /** A decoded payload: each claim may be missing. */
  datatype Payload = Payload(sub: Option<string>, id: Option<UserId>, isSuperuser: Option<bool>, exp: Option<int>)

  /** What the token library hands back, at instant `nowMs`, for a token it
      signed itself. The library checks expiry by default, on the current time
      in whole seconds: every claim comes back unchanged while `exp` is not
      below the current second, and the token is rejected (None) after. */
  function DecodeIssued(c: Claims, nowMs: int): Option<Payload> {
    if c.exp < nowMs / MillisPerSecond then None
    else Some(Payload(Some(c.sub), Some(c.id), Some(c.isSuperuser), Some(c.exp)))
  }

  /** The current-user dict passed to every guard. `is_superuser` is copied
      from the payload as is, so it may be missing. */
  datatype CurrentUser = CurrentUser(username: string, id: UserId, isSuperuser: Option<bool>)

  /** The truthiness of `get_user["is_superuser"]`. */
  predicate IsAdmin(actor: CurrentUser) {
    actor.isSuperuser == Some(true)
  }

  /** `get_current_user`. `decoded` is None when the library rejected the token. */
  function GetCurrentUser(decoded: Option<Payload>, nowMs: int): (r: Result<CurrentUser>)
    ensures r.Ok? <==>
      && decoded.Some? && decoded.value.sub.Some? && decoded.value.id.Some?
      && decoded.value.exp.Some? && nowMs <= decoded.value.exp.value * MillisPerSecond
    ensures r.Ok? ==>
      r.value == CurrentUser(decoded.value.sub.value, decoded.value.id.value, decoded.value.isSuperuser)
    ensures decoded.None? || decoded.value.sub.None? || decoded.value.id.None? ==> r == Err(CouldNotValidateUser)
    ensures decoded.Some? && decoded.value.sub.Some? && decoded.value.id.Some? ==>
      && (decoded.value.exp.None? ==> r == Err(NoAccessTokenSupplied))
      && (decoded.value.exp.Some? && nowMs > decoded.value.exp.value * MillisPerSecond ==> r == Err(TokenExpired))
  {
    match decoded
    case None => Err(CouldNotValidateUser)
    case Some(payload) =>
      if payload.sub.None? || payload.id.None? then Err(CouldNotValidateUser)
      else if payload.exp.None? then Err(NoAccessTokenSupplied)
      else if nowMs > payload.exp.value * MillisPerSecond then Err(TokenExpired)
      else Ok(CurrentUser(payload.sub.value, payload.id.value, payload.isSuperuser))
  }

  /** `authenticate_user`: the named user, if the password verifies against the
      stored hash and the account is active. */
  function AuthenticateUser(users: map<UserId, User>, username: string, password: string,
                            verify: (string, string) -> bool): (r: Result<User>)
    requires UniqueUsernames(users)
    ensures r.Ok? <==> exists k :: k in users && users[k].username == username
                                   && verify(password, users[k].password) && users[k].isActive
    ensures r.Ok? ==> r.value in users.Values && r.value.username == username && r.value.isActive
    ensures r.Err? ==> r.denial == InvalidCredentials
  {
    match FindByUsername(users, username)
    case None => Err(InvalidCredentials)
    case Some(user) =>
      if !verify(password, user.password) || !user.isActive then Err(InvalidCredentials)
      else Ok(user)
  }

  /** The body of a successful `POST /auth/token`. */
  datatype TokenResponse = TokenResponse(accessToken: Claims, tokenType: string)

  /** `login`: authenticate, then issue a 20-minute bearer token for the user. */
  function Login(users: map<UserId, User>, username: string, password: string,
                 verify: (string, string) -> bool, nowMs: int): (r: Result<TokenResponse>)
    requires UniqueUsernames(users)
  {
    var user :- AuthenticateUser(users, username, password, verify);
    Ok(TokenResponse(CreateAccessToken(user.username, user.id, user.isSuperuser, AccessTokenTtl, nowMs), "bearer"))
  }

  /** A login succeeds exactly when the credentials check does, and its bearer
      token names the authenticated user and expires 1200 seconds after the
      second it was issued in. */
  lemma LoginIssuesBearerToken(users: map<UserId, User>, username: string, password: string,
                               verify: (string, string) -> bool, nowMs: int)
    requires UniqueUsernames(users)
    ensures var r := Login(users, username, password, verify, nowMs);
      var auth := AuthenticateUser(users, username, password, verify);
      && (r.Ok? <==> auth.Ok?)
      && (r.Err? ==> r.denial == InvalidCredentials)
      && (r.Ok? ==> r.value == TokenResponse(Claims(username, auth.value.id, auth.value.isSuperuser, nowMs / 1000 + 1200), "bearer"))
  {
  }

  /** Round trip: a token issued at login authenticates its user, with the
      user's superuser flag, at every instant up to and including its `exp`
      second. During the following second the library still accepts it and
      the service answers 403 "Token expired!"; from then on the library's
      rejection surfaces as 401 "Could not validate user". */
  lemma {:induction false} LoginTokenRoundTrip(users: map<UserId, User>, username: string, password: string,
                                               verify: (string, string) -> bool, nowMs: int, laterMs: int)
    requires UniqueUsernames(users)
    requires Login(users, username, password, verify, nowMs).Ok?
    ensures var token := Login(users, username, password, verify, nowMs).value.accessToken;
      var user := AuthenticateUser(users, username, password, verify).value;
      var expMs := (nowMs / 1000 + AccessTokenTtl) * 1000;
      GetCurrentUser(DecodeIssued(token, laterMs), laterMs) ==
        if laterMs <= expMs then Ok(CurrentUser(username, user.id, Some(user.isSuperuser)))
        else if laterMs < expMs + 1000 then Err(TokenExpired)
        else Err(CouldNotValidateUser)
  {
    LoginIssuesBearerToken(users, username, password, verify, nowMs);
    var token := Login(users, username, password, verify, nowMs).value.accessToken;
    ExpiryWindows(token, laterMs);
  }

  /** The two expiry checks disagree for one second: a signed token is refused
      with 403 "Token expired!" exactly during the second after its `exp`
      (the service's full-precision check fires, the library's whole-second
      check does not yet), and with 401 "Could not validate user" exactly from
      the end of that second on. */
  lemma {:induction false} ExpiryWindows(c: Claims, nowMs: int)
    ensures GetCurrentUser(DecodeIssued(c, nowMs), nowMs) == Err(TokenExpired) <==>
      c.exp * 1000 < nowMs < c.exp * 1000 + 1000
    ensures GetCurrentUser(DecodeIssued(c, nowMs), nowMs) == Err(CouldNotValidateUser) <==>
      nowMs >= c.exp * 1000 + 1000
    ensures GetCurrentUser(DecodeIssued(c, nowMs), nowMs).Ok? <==> nowMs <= c.exp * 1000
  {
    if c.exp < nowMs / 1000 {
      assert nowMs >= c.exp * 1000 + 1000;
      assert DecodeIssued(c, nowMs).None?;
    } else {
      assert nowMs < c.exp * 1000 + 1000;
      assert DecodeIssued(c, nowMs).Some?;
    }
  }

  /** A concrete request in that second: a token with `exp` 100 s, presented at
      100.5 s, is refused with 403. */
  lemma ExpiredBranchReachable()
    ensures GetCurrentUser(DecodeIssued(Claims("alice", UserId(1), false, 100), 100500), 100500) == Err(TokenExpired)
  {
    ExpiryWindows(Claims("alice", UserId(1), false, 100), 100500);
  }
}
