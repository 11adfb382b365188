/**
 * JwtTokenProvider in the security package, the one the token filter uses:
 * tokens always valid for validityInHours*60*60*1000 milliseconds.
 */
module SecurityTokens {
  import opened Outcomes
  import opened Users
  import opened Persistence
  import opened Details
  import opened Security
  import opened Jwt
  import opened TokenParsing
  import SecurityUserLookup
  import ServiceTokens

  datatype Settings = Settings(validityInHours: int)

  /** The expiration is computed inline as the hour count times 60*60*1000. */
  function Validity(settings: Settings): int { settings.validityInHours * 60 * 60 * 1000 }

  /** createToken(username, roles), issued at `now`. */
  function CreateToken(settings: Settings, username: string, roles: seq<string>, now: int): (token: string)
    ensures Decode(token) == Some(Claims(username, roles, now, now + Validity(settings)))
  {
    var claims := Claims(username, roles, now, now + Validity(settings));
    DecodeEncode(claims);
    Encode(claims)
  }

  /** createToken(user). */
  function CreateUserToken(settings: Settings, user: AppUser, now: int): (token: string)
    ensures Decode(token) == Some(Claims(user.username, [TypeName(user.userType)], now, now + Validity(settings)))
  {
    CreateToken(settings, user.username, [TypeName(user.userType)], now)
  }

  /** getAuthentication, through this package's details service. */
  function GetAuthentication(users: UserTable, token: string, now: int): (r: Result<Authentication>)
    ensures GetUsername(token, now).Err? ==> r == Err(GetUsername(token, now).error)
    ensures GetUsername(token, now).Ok? && !HasUsername(users, GetUsername(token, now).value) ==>
              r == Err(UsernameNotFound("Username: " + GetUsername(token, now).value + " not found"))
    ensures GetUsername(token, now).Ok? && HasUsername(users, GetUsername(token, now).value) ==> r.Ok?
    ensures r.Ok? ==> r.value.principal.AppUserDetails? && r.value.credentials == ""
    ensures r.Ok? ==> r.value.authorities == Authorities(r.value.principal)
    ensures r.Ok? ==> var u := r.value.principal.user;
              u.id in users && users[u.id] == u && u.username == GetUsername(token, now).value
  {
    var name :- GetUsername(token, now);
    var details :- SecurityUserLookup.LoadUserByUsername(users, name);
    Ok(Authentication(details, "", Authorities(details)))
  }

  /** Both providers issue the same token for the same hour count. */
  lemma ProvidersAgree(hours: int, username: string, roles: seq<string>, now: int)
    ensures CreateToken(Settings(hours), username, roles, now) ==
            ServiceTokens.CreateToken(username, roles, ServiceTokens.DefaultValidity(ServiceTokens.Settings(hours)), now)
  {
  }

  /** Both providers build the same authentication from any token. */
  lemma AuthenticationsAgree(users: UserTable, token: string, now: int)
    ensures GetAuthentication(users, token, now) == ServiceTokens.GetAuthentication(users, token, now)
  {
  }

  /** With a validity of zero hours a token is refused from the moment it is issued. */
  lemma ZeroHoursDeadOnArrival(username: string, roles: seq<string>, issued: int, now: int)
    requires issued <= now
    ensures !ValidateToken(CreateToken(Settings(0), username, roles, issued), now)
  {
  }

  /** A token is accepted exactly while `now` is before its issue time plus the configured hours. */
  lemma IssuedTokenLive(settings: Settings, username: string, roles: seq<string>, issued: int, now: int)
    ensures ValidateToken(CreateToken(settings, username, roles, issued), now) <==>
            now < issued + settings.validityInHours * 3_600_000
  {
    assert Validity(settings) == settings.validityInHours * 3_600_000;
  }
}
