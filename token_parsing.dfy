/**
 * The parts of the token providers that read tokens and headers. Both
 * JwtTokenProvider classes contain the same resolveToken, getUsername and
 * validateToken; they are defined once here and used by both.
 */
module TokenParsing {
  import opened Outcomes
  import opened Text
  import opened Jwt

  const BearerPrefix: string := "Bearer "

  /** resolveToken: the Authorization header without its "Bearer " prefix, if it has one. */
  function ResolveToken(header: Option<string>): (r: Option<string>)
    ensures r.Some? <==> header.Some? && StartsWith(header.value, BearerPrefix)
    ensures r.Some? ==> header.value == BearerPrefix + r.value && r.value == header.value[7..]
  {
    if header.Some? && StartsWith(header.value, BearerPrefix) then
      assert header.value == header.value[..7] + header.value[7..];
      Some(header.value[7..])
    else None
  }

  lemma ResolveBearer(token: string)
    ensures ResolveToken(Some(BearerPrefix + token)) == Some(token)
  {
    assert (BearerPrefix + token)[..|BearerPrefix|] == BearerPrefix;
  }

  /** The prefix is case-sensitive: a lower-case "bearer " is not accepted. */
  lemma LowercaseBearerRefused(token: string)
    ensures ResolveToken(Some("bearer " + token)) == None
  {
    assert ("bearer " + token)[0] != BearerPrefix[0];
  }

  /**
   * getUsername: the subject of the token. The parser refuses a token it
   * cannot read, and a token whose expiration lies before `now`.
   */
  function GetUsername(token: string, now: int): (r: Result<string>)
    ensures Decode(token).None? ==> r == Err(MalformedToken)
    ensures Decode(token).Some? && Decode(token).value.expiration < now ==> r == Err(ExpiredToken)
    ensures Decode(token).Some? && now <= Decode(token).value.expiration ==> r == Ok(Decode(token).value.subject)
  {
    match Decode(token)
    case None => Err(MalformedToken)
    case Some(claims) => if claims.expiration < now then Err(ExpiredToken) else Ok(claims.subject)
  }

  /** validateToken: every parser failure is caught and reads as false. */
  predicate ValidateToken(token: string, now: int) {
    match Decode(token)
    case None => false
    case Some(claims) => claims.expiration > now
  }

  /** A token validateToken accepts can always be read back for its subject. */
  lemma ValidTokenHasUsername(token: string, now: int)
    requires ValidateToken(token, now)
    ensures GetUsername(token, now) == Ok(Decode(token).value.subject)
  {
  }

  /** Text that is no token at all is refused without failing. */
  lemma GarbageRefused(now: int)
    ensures !ValidateToken("dadsajs", now)
    ensures GetUsername("dadsajs", now) == Err(MalformedToken)
  {
    NoSeparatorNoToken("dadsajs");
  }
}
