/** A second authentication factor: an opaque token that expires. */
module MultiFactorAuths {

  import opened MachineInts

  /** `MultiFactorAuth::new` is the constructor. */
  datatype MultiFactorAuth = MultiFactorAuth(user: string, factorToken: string, tokenExpiration: u64)

  /** `MultiFactorAuth::verify_token`, with the clock reading passed in as `now`. */
  function VerifyToken(m: MultiFactorAuth, token: string, now: u64): (b: bool)
    ensures !b <==> m.tokenExpiration <= now || token != m.factorToken
  {
    now < m.tokenExpiration && m.factorToken == token
  }

  /** The stored token is the only one ever accepted, at any time. */
  lemma WrongTokenRejected(m: MultiFactorAuth, token: string, now: u64)
    requires token != m.factorToken
    ensures !VerifyToken(m, token, now)
  {
  }

  /** From the expiration second on, every token is refused, the right one included. */
  lemma ExpiredRejectsAll(m: MultiFactorAuth, token: string, now: u64)
    requires m.tokenExpiration <= now
    ensures !VerifyToken(m, token, now)
  {
  }

  /** Before expiration the right token is accepted. */
  lemma RightTokenInTimeAccepted(m: MultiFactorAuth, now: u64)
    requires now < m.tokenExpiration
    ensures VerifyToken(m, m.factorToken, now)
  {
  }

  /** The `user` field plays no part in verification. */
  lemma IgnoresUser(m: MultiFactorAuth, other: string, token: string, now: u64)
    ensures VerifyToken(m.(user := other), token, now) == VerifyToken(m, token, now)
  {
  }
}
