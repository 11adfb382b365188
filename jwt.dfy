/**
 * The signed token library (jjwt), reduced to a codec for the claims the
 * providers set: subject, roles, issued-at and expiration. Signing, the
 * secret key and base64 are not modelled. So that decoding has a body, a
 * token is a length-prefixed text form of the claims. The rest of the project
 * relies on the round trip Decode(Encode(c)) == Some(c), proved below, and on
 * one fact of this stand-in format: text without the ':' separator does not
 * decode. Any string the decoder cannot read yields None (the parser's
 * exception).
 */
module Jwt {
  import opened Outcomes
  import opened Text
  import opened Decimal

  datatype Claims = Claims(subject: string, roles: seq<string>, issuedAt: int, expiration: int)

  /** One field: its length in decimal, a colon, the text. */
  function Field(x: string): string {
    NatToString(|x|) + ":" + x
  }

  /** The first field of `s` and what follows it. */
  function ReadField(s: string): Option<(string, string)> {
    match IndexOf(s, ':')
    case None => None
    case Some(k) =>
      match ParseNat(s[..k])
      case None => None
      case Some(n) =>
        if k + 1 + n <= |s| then Some((s[k + 1..k + 1 + n], s[k + 1 + n..])) else None
  }

  lemma ReadFieldOfField(x: string, rest: string)
    ensures ReadField(Field(x) + rest) == Some((x, rest))
  {
    var d := NatToString(|x|);
    var s := Field(x) + rest;
    assert s == d + [':'] + (x + rest);
    IndexAfterPrefix(d, ':', x + rest);
    assert s[..|d|] == d;
    NatRoundTrip(|x|);
    assert s[|d| + 1..|d| + 1 + |x|] == x;
    assert s[|d| + 1 + |x|..] == rest;
  }

  function Fields(xs: seq<string>): string {
    if xs == [] then "" else Field(xs[0]) + Fields(xs[1..])
  }

  function ReadFields(s: string, count: nat): Option<(seq<string>, string)>
    decreases count
  {
    if count == 0 then Some(([], s))
    else
      match ReadField(s)
      case None => None
      case Some(first) =>
        match ReadFields(first.1, count - 1)
        case None => None
        case Some(others) => Some(([first.0] + others.0, others.1))
  }

  lemma {:induction false} ReadFieldsOfFields(xs: seq<string>, rest: string)
    ensures ReadFields(Fields(xs) + rest, |xs|) == Some((xs, rest))
  {
    if xs != [] {
      assert Fields(xs) + rest == Field(xs[0]) + (Fields(xs[1..]) + rest);
      ReadFieldOfField(xs[0], Fields(xs[1..]) + rest);
      ReadFieldsOfFields(xs[1..], rest);
      assert [xs[0]] + xs[1..] == xs;
    } else {
      assert Fields(xs) + rest == rest;
    }
  }

  /** Jwts.builder()...compact(). */
  function Encode(c: Claims): string {
    Field(c.subject) + Field(NatToString(|c.roles|)) + Fields(c.roles) +
    Field(IntToString(c.issuedAt)) + Field(IntToString(c.expiration))
  }

  /** Jwts.parser()...parseClaimsJws(token).body, or None where the parser throws. */
  function Decode(token: string): Option<Claims> {
    var subject :- ReadField(token);
    var count :- ReadField(subject.1);
    var n :- ParseNat(count.0);
    var roles :- ReadFields(count.1, n);
    var issued :- ReadField(roles.1);
    var iat :- ParseInt(issued.0);
    var expires :- ReadField(issued.1);
    var exp :- ParseInt(expires.0);
    if expires.1 == [] then Some(Claims(subject.0, roles.0, iat, exp)) else None
  }

  /** Decoding an issued token gives back exactly the claims it was issued with. */
  lemma DecodeEncode(c: Claims)
    ensures Decode(Encode(c)) == Some(c)
  {
    var a := Field(c.subject);
    var b := Field(NatToString(|c.roles|));
    var r := Fields(c.roles);
    var i := Field(IntToString(c.issuedAt));
    var e := Field(IntToString(c.expiration));
    assert Encode(c) == a + (b + (r + (i + (e + []))));
    ReadFieldOfField(c.subject, b + (r + (i + (e + []))));
    ReadFieldOfField(NatToString(|c.roles|), r + (i + (e + [])));
    NatRoundTrip(|c.roles|);
    ReadFieldsOfFields(c.roles, i + (e + []));
    ReadFieldOfField(IntToString(c.issuedAt), e + []);
    IntRoundTrip(c.issuedAt);
    ReadFieldOfField(IntToString(c.expiration), []);
    IntRoundTrip(c.expiration);
  }

  /** A string with no field separator is not a token (the test's "dadsajs"). */
  lemma NoSeparatorNoToken(s: string)
    requires forall k :: 0 <= k < |s| ==> s[k] != ':'
    ensures Decode(s) == None
  {
  }
}
