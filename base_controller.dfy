/** BaseController: the logged-in user, found through the current authentication. */
module BaseController {
  import opened Outcomes
  import opened Users
  import opened Persistence
  import opened Details
  import opened Security

  /**
   * getLoggedUser: the stored user named by the principal. A missing
   * authentication and a missing user both end in a null dereference; a
   * principal that is not a UserDetails fails the cast.
   */
  function GetLoggedUser(users: UserTable, auth: Option<Authentication>): (r: Result<AppUser>)
    ensures auth.None? ==> r == Err(NullPointer)
    ensures auth.Some? && !auth.value.principal.IsUserDetails() ==> r == Err(ClassCast)
    ensures auth.Some? && auth.value.principal.IsUserDetails() ==>
              (r.Ok? <==> HasUsername(users, Username(auth.value.principal)))
    ensures auth.Some? && auth.value.principal.IsUserDetails() && r.Err? ==> r.error == NullPointer
    ensures r.Ok? ==> auth.Some? && auth.value.principal.IsUserDetails()
    ensures r.Ok? ==> r.value.username == Username(auth.value.principal)
    ensures r.Ok? ==> r.value.id in users && users[r.value.id] == r.value
  {
    match auth
    case None => Err(NullPointer)
    case Some(a) =>
      if !a.principal.IsUserDetails() then Err(ClassCast)
      else
        match FindByUsername(users, Username(a.principal))
        case None => Err(NullPointer)
        case Some(u) => Ok(u)
  }

  /** isAdmin: the logged user's type is ADMINISTRATOR. */
  function IsAdmin(users: UserTable, auth: Option<Authentication>): (r: Result<bool>)
    ensures r.Ok? <==> GetLoggedUser(users, auth).Ok?
    ensures r.Ok? ==> (r.value <==> GetLoggedUser(users, auth).value.userType == ADMINISTRATOR)
    ensures r.Err? ==> r.error == GetLoggedUser(users, auth).error
  {
    var user :- GetLoggedUser(users, auth);
    Ok(user.userType == ADMINISTRATOR)
  }

  /** Under the authentication built for a stored user, that user is the logged user. */
  lemma LoggedUserOfAuthentication(users: UserTable, u: AppUser)
    requires u.id in users && users[u.id] == u
    ensures GetLoggedUser(users, Some(UserAuthentication(u))) == Ok(u)
  {
    assert FindByUsername(users, u.username) == Some(u);
  }

  /** For such an authentication, isAdmin and hasAuthority('ADMINISTRATOR') agree. */
  lemma IsAdminAgreesWithAuthority(users: UserTable, u: AppUser)
    requires u.id in users && users[u.id] == u
    ensures IsAdmin(users, Some(UserAuthentication(u))) == Ok(IsAdministrator(Some(UserAuthentication(u))))
  {
    LoggedUserOfAuthentication(users, u);
    AdministratorIffAdministratorType(u);
  }
}
