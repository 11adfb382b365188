/** AppUserDetailsService in the security.service package. */
module ServiceUserLookup {
  import opened Outcomes
  import opened Persistence
  import opened Details

  function NotFoundMessage(username: string): string {
    "Username: " + username + " not found"
  }

  /** loadUserByUsername: the details of the stored user with that name, or UsernameNotFound. */
  function LoadUserByUsername(users: UserTable, username: string): (r: Result<Principal>)
    ensures r.Ok? <==> HasUsername(users, username)
    ensures r.Ok? ==> r.value.AppUserDetails? && r.value.user.id in users && users[r.value.user.id] == r.value.user
    ensures r.Ok? ==> Username(r.value) == username
    ensures r.Err? ==> r.error == UsernameNotFound(NotFoundMessage(username))
  {
    match FindByUsername(users, username)
    case Some(u) => Ok(AppUserDetails(u))
    case None => Err(UsernameNotFound(NotFoundMessage(username)))
  }
}

/** AppUserDetailsService in the security package, a copy of the one above. */
module SecurityUserLookup {
  import opened Outcomes
  import opened Persistence
  import opened Details
  import ServiceUserLookup

  function LoadUserByUsername(users: UserTable, username: string): (r: Result<Principal>)
    ensures r.Ok? <==> HasUsername(users, username)
    ensures r.Ok? ==> r.value.AppUserDetails? && r.value.user.id in users && users[r.value.user.id] == r.value.user
    ensures r.Ok? ==> Username(r.value) == username
    ensures r.Err? ==> r.error == UsernameNotFound("Username: " + username + " not found")
  {
    match FindByUsername(users, username)
    case Some(u) => Ok(AppUserDetails(u))
    case None => Err(UsernameNotFound("Username: " + username + " not found"))
  }

  /** The two services answer every lookup alike. */
  lemma LookupsAgree(users: UserTable, username: string)
    ensures LoadUserByUsername(users, username) == ServiceUserLookup.LoadUserByUsername(users, username)
  {
  }
}
