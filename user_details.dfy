/**
 * The principal an authentication carries. AppUserDetails wraps a stored
 * user and answers the flag queries from its fields; the other two
 * alternatives stand for principals the core does not build itself.
 */
module Details {
  import opened Users
  import opened Passwords
  import Service

  datatype Principal =
    | AppUserDetails(user: AppUser)
      /** Some other UserDetails implementation, with its own answers. */
    | OtherUserDetails(name: string, granted: seq<string>, enabled: bool, accountNonExpired: bool,
                       accountNonLocked: bool, credentialsNonExpired: bool)
      /** A principal that is not a UserDetails at all (such as an anonymous name). */
    | NotUserDetails(name: string)
  {
    predicate IsUserDetails() { !NotUserDetails? }
  }

  function Authorities(p: Principal): seq<string>
    requires p.IsUserDetails()
  {
    match p
    case AppUserDetails(u) => [TypeName(u.userType)]
    case OtherUserDetails(_, granted, _, _, _, _) => granted
  }

  /** getPassword: the encoded password, as stored. */
  function Password(u: AppUser): string { HashText(u.password) }

  function Username(p: Principal): string
    requires p.IsUserDetails()
  {
    match p
    case AppUserDetails(u) => u.username
    case OtherUserDetails(name, _, _, _, _, _) => name
  }

  predicate IsAccountNonExpired(p: Principal, now: int)
    requires p.IsUserDetails()
  {
    match p
    case AppUserDetails(u) => u.validFrom <= now <= u.expireDate
    case OtherUserDetails(_, _, _, nonExpired, _, _) => nonExpired
  }

  predicate IsAccountNonLocked(p: Principal)
    requires p.IsUserDetails()
  {
    match p
    case AppUserDetails(u) => u.active
    case OtherUserDetails(_, _, _, _, nonLocked, _) => nonLocked
  }

  predicate IsCredentialsNonExpired(p: Principal)
    requires p.IsUserDetails()
  {
    match p
    case AppUserDetails(_) => true
    case OtherUserDetails(_, _, _, _, _, credentialsNonExpired) => credentialsNonExpired
  }

  predicate IsEnabled(p: Principal)
    requires p.IsUserDetails()
  {
    match p
    case AppUserDetails(u) => u.active
    case OtherUserDetails(_, _, enabled, _, _, _) => enabled
  }

  /** The four flags the validity filter asks of a principal, in its order. */
  predicate AllFlags(p: Principal, now: int)
    requires p.IsUserDetails()
  {
    IsEnabled(p) && IsAccountNonExpired(p, now) && IsAccountNonLocked(p) && IsCredentialsNonExpired(p)
  }

  /** What the wrapper reports about the user it wraps. */
  lemma AppUserDetailsReports(u: AppUser, now: int)
    ensures Authorities(AppUserDetails(u)) == [TypeName(u.userType)]
    ensures Username(AppUserDetails(u)) == u.username && Password(u) == HashText(u.password)
    ensures IsAccountNonExpired(AppUserDetails(u), now) <==> u.validFrom <= now <= u.expireDate
    ensures IsAccountNonLocked(AppUserDetails(u)) == IsEnabled(AppUserDetails(u)) == u.active
    ensures IsCredentialsNonExpired(AppUserDetails(u))
  {
  }

  /** The flags together say exactly what UserService.isUserValid says. */
  lemma FlagsAgreeWithUserValidity(u: AppUser, now: int)
    ensures AllFlags(AppUserDetails(u), now) <==> Service.IsUserValid(u, now)
  {
  }
}
