/** LoginController: log in with credentials for a token, or ask whether a token is still good. */
module LoginEndpoints {
  import opened Outcomes
  import opened Users
  import opened Dto
  import opened Persistence
  import opened Security
  import opened Jwt
  import opened TokenParsing
  import opened Service
  import ServiceTokens
  import SecurityTokens
  import JwtFilter

  /** TokenLoginResponse(valid). */
  datatype TokenLoginResponse = TokenLoginResponse(valid: bool)

  /** login: authenticate, then issue a token with the provider's default validity. */
  function Login(settings: ServiceTokens.Settings, users: UserTable, creds: Credentials, now: int)
    : (r: Result<TokenResponse>)
    ensures r.Ok? <==> exists id :: id in users && AcceptsLogin(users[id], creds, now)
    ensures r.Err? ==> r.error == BadCredentials(InvalidCredentialsMessage)
    ensures r.Ok? ==>
              exists id ::
                && id in users && AcceptsLogin(users[id], creds, now)
                && r.value.user == Project(users[id])
                && Decode(r.value.token) == Some(Claims(creds.username, [TypeName(users[id].userType)], now,
                                                        now + ServiceTokens.DefaultValidity(settings)))
  {
    var user :- Authenticate(users, creds, now);
    var token := ServiceTokens.CreateToken(user.username, [TypeName(user.userType)],
                                           ServiceTokens.DefaultValidity(settings), now);
    Ok(TokenResponse(Project(user), token))
  }

  /** loginWithToken: whether the token is valid; a token that cannot be read yields false. */
  function LoginWithToken(token: string, now: int): (r: TokenLoginResponse)
    ensures r.valid <==> Decode(token).Some? && now < Decode(token).value.expiration
    ensures Decode(token).None? ==> r == TokenLoginResponse(false)
  {
    TokenLoginResponse(ValidateToken(token, now))
  }

  /** A disabled account is refused with the same error, its password notwithstanding. */
  lemma DisabledUserRefused(settings: ServiceTokens.Settings, users: UserTable, creds: Credentials, u: AppUser, now: int)
    requires u.id in users && users[u.id] == u && u.username == creds.username
    requires CheckPassword(u, creds.password) && !u.active
    ensures Login(settings, users, creds, now) == Err(BadCredentials(InvalidCredentialsMessage))
  {
    RefusalsLookAlike(users, creds, now, u);
  }

  /** The token of a successful login stays good exactly until its validity runs out. */
  lemma LoginTokenLifetime(settings: ServiceTokens.Settings, users: UserTable, creds: Credentials, issued: int, now: int)
    requires Login(settings, users, creds, issued).Ok?
    ensures LoginWithToken(Login(settings, users, creds, issued).value.token, now).valid <==>
            now < issued + ServiceTokens.DefaultValidity(settings)
  {
  }

  /**
   * The token a login returns, sent back as a bearer token while it is live,
   * makes the token filter authenticate the request as the logged-in user,
   * given both providers read the same hour count and the store is unchanged.
   */
  lemma LoginTokenAuthenticates(hours: int, users: UserTable, creds: Credentials, issued: int,
                                current: Option<Authentication>, now: int)
    requires Login(ServiceTokens.Settings(hours), users, creds, issued).Ok?
    requires now < issued + ServiceTokens.DefaultValidity(ServiceTokens.Settings(hours))
    ensures var token := Login(ServiceTokens.Settings(hours), users, creds, issued).value.token;
            var u := Authenticate(users, creds, issued).value;
            JwtFilter.TokenStep(users, Some(BearerPrefix + token), current, now) == Ok(Some(UserAuthentication(u)))
  {
    var u := Authenticate(users, creds, issued).value;
    var settings := SecurityTokens.Settings(hours);
    SecurityTokens.ProvidersAgree(hours, u.username, [TypeName(u.userType)], issued);
    assert SecurityTokens.Validity(settings) == ServiceTokens.DefaultValidity(ServiceTokens.Settings(hours));
    JwtFilter.BearerOfStoredUser(users, settings, u, issued, current, now);
  }
}
