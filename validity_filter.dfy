/**
 * UserValiditySecurityFilter: an authentication whose principal is not
 * active is removed from the security context before the chain goes on.
 */
module ValidityFilter {
  import opened Outcomes
  import opened Users
  import opened Persistence
  import opened Details
  import opened Security
  import opened TokenParsing
  import Service
  import SecurityTokens
  import JwtFilter

  /** isActive: no authentication is not active; a principal that is not a UserDetails fails the cast. */
  function IsActive(auth: Option<Authentication>, now: int): (r: Result<bool>)
    ensures auth.None? ==> r == Ok(false)
    ensures auth.Some? ==> (r.Err? <==> !auth.value.principal.IsUserDetails())
    ensures r.Err? ==> r.error == ClassCast
    ensures auth.Some? && auth.value.principal.IsUserDetails() ==> r == Ok(AllFlags(auth.value.principal, now))
    ensures auth.Some? && auth.value.principal.AppUserDetails? ==>
              r == Ok(Service.IsUserValid(auth.value.principal.user, now))
  {
    match auth
    case None => Ok(false)
    case Some(a) =>
      if !a.principal.IsUserDetails() then Err(ClassCast)
      else
        var p := a.principal;
        Ok(IsEnabled(p) && IsAccountNonExpired(p, now) && IsAccountNonLocked(p) && IsCredentialsNonExpired(p))
  }

  /** The keep-or-clear step of doFilter. */
  function Screened(auth: Option<Authentication>, now: int): (r: Result<Option<Authentication>>)
    ensures r.Err? <==> auth.Some? && !auth.value.principal.IsUserDetails()
    ensures r.Ok? ==> r.value == (if auth.Some? && AllFlags(auth.value.principal, now) then auth else None)
    ensures r.Ok? && r.value.Some? ==> AllFlags(r.value.value.principal, now)
  {
    var active :- IsActive(auth, now);
    Ok(if active then auth else None)
  }

  /** Screening twice leaves what screening once leaves. */
  lemma ScreenedIdempotent(auth: Option<Authentication>, now: int)
    requires Screened(auth, now).Ok?
    ensures Screened(Screened(auth, now).value, now) == Screened(auth, now)
  {
  }

  /** The details of a stored user stay exactly when isUserValid holds for that user. */
  lemma AppUserKeptIffValid(u: AppUser, credentials: string, authorities: seq<string>, now: int)
    ensures var auth := Some(Authentication(AppUserDetails(u), credentials, authorities));
            Screened(auth, now) == Ok(if Service.IsUserValid(u, now) then auth else None)
  {
  }

  class UserValiditySecurityFilter {
    constructor()
    {
    }

    /** doFilter: the context keeps its authentication only if it is active; then the chain runs once. */
    method DoFilter(context: SecurityContext, chain: FilterChain, now: int) returns (r: Outcome)
      modifies context, chain
      ensures var step := Screened(old(context.authentication), now);
              step.Ok? ==> r == Pass && context.authentication == step.value &&
                           chain.seen == old(chain.seen) + [step.value]
      ensures var step := Screened(old(context.authentication), now);
              step.Err? ==> r == Fail(ClassCast) && context.authentication == old(context.authentication) &&
                            chain.seen == old(chain.seen)
    {
      var auth := context.authentication;
      var active := IsActive(auth, now);
      if active.Err? {
        return Fail(active.error);
      }
      context.authentication := if active.value then auth else None;
      chain.DoFilter(context);
      r := Pass;
    }
  }

  /** The token filter followed by the validity filter, as one step on the context. */
  function BothFilters(users: UserTable, header: Option<string>, current: Option<Authentication>, now: int)
    : Result<Option<Authentication>>
  {
    var auth :- JwtFilter.TokenStep(users, header, current, now);
    Screened(auth, now)
  }

  /**
   * A live token of a stored user ends as that user's authentication when the
   * account is valid, and as no authentication at all when it is not.
   */
  lemma LiveTokenScreened(users: UserTable, settings: SecurityTokens.Settings, u: AppUser, issued: int,
                          current: Option<Authentication>, now: int)
    requires u.id in users && users[u.id] == u
    requires now < issued + SecurityTokens.Validity(settings)
    ensures var header := Some(BearerPrefix + SecurityTokens.CreateUserToken(settings, u, issued));
            BothFilters(users, header, current, now) ==
              Ok(if Service.IsUserValid(u, now) then Some(UserAuthentication(u)) else None)
  {
    JwtFilter.BearerOfStoredUser(users, settings, u, issued, current, now);
    AppUserKeptIffValid(u, "", Authorities(AppUserDetails(u)), now);
  }
}
