/**
 * The security context a request runs under, the authentication it holds,
 * the authority check behind hasAuthority('ADMINISTRATOR'), and the rest of
 * the filter chain, which records what it sees each time it is called.
 */
module Security {
  import opened Outcomes
  import opened Users
  import opened Details

  /** UsernamePasswordAuthenticationToken(principal, credentials, authorities). */
  datatype Authentication = Authentication(principal: Principal, credentials: string, authorities: seq<string>)

  const AdministratorAuthority: string := "ADMINISTRATOR"

  /** hasAuthority('ADMINISTRATOR') evaluated on the current authentication. */
  predicate IsAdministrator(auth: Option<Authentication>) {
    auth.Some? && AdministratorAuthority in auth.value.authorities
  }

  /** The authentication the token provider builds for the details of a stored user. */
  function UserAuthentication(u: AppUser): (a: Authentication)
    ensures a.principal.IsUserDetails() && a.authorities == Authorities(a.principal)
  {
    Authentication(AppUserDetails(u), "", Authorities(AppUserDetails(u)))
  }

  /** Only an administrator's record yields the administrator authority. */
  lemma AdministratorIffAdministratorType(u: AppUser)
    ensures IsAdministrator(Some(UserAuthentication(u))) <==> u.userType == ADMINISTRATOR
  {
    if u.userType == USER {
      assert TypeName(USER)[0] != AdministratorAuthority[0];
    }
  }

  class SecurityContext {
    var authentication: Option<Authentication>

    constructor(authentication: Option<Authentication>)
      ensures this.authentication == authentication
    {
      this.authentication := authentication;
    }
  }

  /** The rest of the filter chain: it records the authentication visible at each call. */
  class FilterChain {
    var seen: seq<Option<Authentication>>

    constructor()
      ensures seen == []
    {
      seen := [];
    }

    method DoFilter(context: SecurityContext)
      modifies this
      ensures seen == old(seen) + [context.authentication]
    {
      seen := seen + [context.authentication];
    }
  }
}
