/**
 * JwtTokenFilter: a request's bearer token, when it resolves and is valid,
 * replaces the authentication in the security context; the chain is then
 * continued.
 */
module JwtFilter {
  import opened Outcomes
  import opened Users
  import opened Persistence
  import opened Details
  import opened Security
  import opened Jwt
  import opened TokenParsing
  import SecurityTokens

  /** The token a request carries that the filter acts on, if any. */
  predicate CarriesValidToken(header: Option<string>, now: int) {
    ResolveToken(header).Some? && ValidateToken(ResolveToken(header).value, now)
  }

  /** The subject of the valid token a request carries. */
  function Subject(header: Option<string>, now: int): string
    requires CarriesValidToken(header, now)
  {
    Decode(ResolveToken(header).value).value.subject
  }

  /** The authentication the filter leaves in the context, or the failure it raises. */
  function TokenStep(users: UserTable, header: Option<string>, current: Option<Authentication>, now: int)
    : (r: Result<Option<Authentication>>)
    ensures !CarriesValidToken(header, now) ==> r == Ok(current)
    ensures CarriesValidToken(header, now) ==> (r.Ok? <==> HasUsername(users, Subject(header, now)))
    ensures CarriesValidToken(header, now) && r.Ok? ==>
              exists id :: id in users && users[id].username == Subject(header, now) &&
                           r.value == Some(UserAuthentication(users[id]))
    ensures r.Err? ==> CarriesValidToken(header, now) &&
                       r.error == UsernameNotFound("Username: " + Subject(header, now) + " not found")
  {
    var token := ResolveToken(header);
    if token.Some? && ValidateToken(token.value, now) then
      ValidTokenHasUsername(token.value, now);
      var auth :- SecurityTokens.GetAuthentication(users, token.value, now);
      assert auth == UserAuthentication(auth.principal.user);
      Ok(Some(auth))
    else
      Ok(current)
  }

  /** A live token issued for a stored user authenticates the request as that user. */
  lemma BearerOfStoredUser(users: UserTable, settings: SecurityTokens.Settings, u: AppUser, issued: int,
                           current: Option<Authentication>, now: int)
    requires u.id in users && users[u.id] == u
    requires now < issued + SecurityTokens.Validity(settings)
    ensures TokenStep(users, Some(BearerPrefix + SecurityTokens.CreateUserToken(settings, u, issued)), current, now)
            == Ok(Some(UserAuthentication(u)))
  {
    var token := SecurityTokens.CreateUserToken(settings, u, issued);
    ResolveBearer(token);
    assert FindByUsername(users, u.username) == Some(u);
  }

  class JwtTokenFilter {
    const dao: UserDAO

    constructor(dao: UserDAO)
      ensures this.dao == dao
    {
      this.dao := dao;
    }

    /**
     * doFilter: on success the context holds the step's authentication and
     * the chain has been called once with it; a failing lookup propagates
     * before the context or the chain is touched.
     */
    method DoFilter(header: Option<string>, context: SecurityContext, chain: FilterChain, now: int)
      returns (r: Outcome)
      modifies context, chain
      ensures var step := TokenStep(dao.users, header, old(context.authentication), now);
              step.Ok? ==> r == Pass && context.authentication == step.value &&
                           chain.seen == old(chain.seen) + [step.value]
      ensures var step := TokenStep(dao.users, header, old(context.authentication), now);
              step.Err? ==> r == Fail(step.error) && context.authentication == old(context.authentication) &&
                            chain.seen == old(chain.seen)
    {
      var token := ResolveToken(header);
      if token.Some? && ValidateToken(token.value, now) {
        var auth := SecurityTokens.GetAuthentication(dao.users, token.value, now);
        if auth.Err? {
          return Fail(auth.error);
        }
        context.authentication := Some(auth.value);
      }
      chain.DoFilter(context);
      r := Pass;
    }
  }
}
