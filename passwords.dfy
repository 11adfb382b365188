/**
 * The password encoder the service uses (BCrypt): a salted, one-way encoding
 * and a matcher. The salt, which BCrypt draws at random, is a parameter here.
 * The digest below is a stand-in for the BCrypt cipher: nothing in this
 * project depends on how it mixes its input, only on the fact that a
 * password matches its own encoding (Encode's postcondition). In particular
 * nothing here claims that two different passwords never match the same hash.
 */
module Passwords {
  import opened Decimal

  type Salt = nat

  /** An encoded password: the salt it was made with and the digest. */
  datatype Hash = Hash(salt: Salt, digest: nat)

  const Modulus: nat := 2305843009213693951

  function Digest(salt: Salt, plain: string): nat {
    if plain == [] then salt % Modulus
    else (Digest(salt, plain[..|plain| - 1]) * 131 + plain[|plain| - 1] as int) % Modulus
  }

  /** BCryptPasswordEncoder.matches: does `plain` match the encoded password? */
  predicate Matches(plain: string, h: Hash) {
    Digest(h.salt, plain) == h.digest
  }

  /** BCryptPasswordEncoder.encode, with the salt it would draw given explicitly. */
  function Encode(plain: string, salt: Salt): (h: Hash)
    ensures Matches(plain, h)
    ensures h.salt == salt
  {
    Hash(salt, Digest(salt, plain))
  }

  /** The text form of an encoded password, as it appears in a rendered user. */
  function HashText(h: Hash): string {
    "$2a$10$" + NatToString(h.salt) + "$" + NatToString(h.digest)
  }
}
