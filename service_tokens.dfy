/**
 * JwtTokenProvider in the security.service package: tokens issued with a
 * Duration validity that defaults to validityInHours hours.
 */
module ServiceTokens {
  import opened Outcomes
  import opened Users
  import opened Persistence
  import opened Details
  import opened Security
  import opened Jwt
  import opened TokenParsing
  import ServiceUserLookup

  /** The provider's configuration, security.jwt.token.expireHours. */
  datatype Settings = Settings(validityInHours: int)

  /** Duration.ofHours(hours).toMillis(). */
  function HoursToMillis(hours: int): int { hours * 3600 * 1000 }

  /** The default validity of createToken. */
  function DefaultValidity(settings: Settings): int { HoursToMillis(settings.validityInHours) }

  /** createToken(username, roles, validity), issued at `now`. */
  function CreateToken(username: string, roles: seq<string>, validity: int, now: int): (token: string)
    ensures Decode(token) == Some(Claims(username, roles, now, now + validity))
  {
    DecodeEncode(Claims(username, roles, now, now + validity));
    Encode(Claims(username, roles, now, now + validity))
  }

  /** createToken(user, validity): the user's name as subject and the name of its type as the one role. */
  function CreateUserToken(user: AppUser, validity: int, now: int): (token: string)
    ensures Decode(token) == Some(Claims(user.username, [TypeName(user.userType)], now, now + validity))
  {
    CreateToken(user.username, [TypeName(user.userType)], validity, now)
  }

  /** getAuthentication: the details of the token's subject, no credentials, the details' authorities. */
  function GetAuthentication(users: UserTable, token: string, now: int): (r: Result<Authentication>)
    ensures GetUsername(token, now).Err? ==> r == Err(GetUsername(token, now).error)
    ensures GetUsername(token, now).Ok? ==>
              r == (var details := ServiceUserLookup.LoadUserByUsername(users, GetUsername(token, now).value);
                    if details.Ok? then Ok(Authentication(details.value, "", Authorities(details.value)))
                    else Err(details.error))
  {
    var name :- GetUsername(token, now);
    var details :- ServiceUserLookup.LoadUserByUsername(users, name);
    Ok(Authentication(details, "", Authorities(details)))
  }

  /** A freshly issued token is accepted exactly while `now` is before its issue time plus its validity. */
  lemma IssuedTokenLive(username: string, roles: seq<string>, validity: int, issued: int, now: int)
    ensures ValidateToken(CreateToken(username, roles, validity, issued), now) <==> now < issued + validity
  {
  }

  /** The subject can be read back from a token that has not yet expired. */
  lemma IssuedTokenNamesSubject(username: string, roles: seq<string>, validity: int, issued: int, now: int)
    requires now <= issued + validity
    ensures GetUsername(CreateToken(username, roles, validity, issued), now) == Ok(username)
  {
  }

  /** For a stored user, an issued token authenticates as that stored record. */
  lemma IssuedTokenAuthenticates(users: UserTable, u: AppUser, validity: int, issued: int, now: int)
    requires u.id in users && users[u.id] == u
    requires now <= issued + validity
    ensures GetAuthentication(users, CreateUserToken(u, validity, issued), now) == Ok(UserAuthentication(u))
  {
    assert FindByUsername(users, u.username) == Some(u);
  }
}
