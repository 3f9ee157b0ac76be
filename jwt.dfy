/**
 * A symbolic model of the JSON Web Tokens (RFC 7519) both services exchange as
 * bearer tokens (section 2.1 of RFC 6750). There is no cryptography here: a
 * token either carries its claims together with the key and algorithm it was
 * signed with, or is text the decoder cannot read. What the services do with a
 * token is fixed by the three results of `jwt.decode`: the claims, an expired
 * signature, or any other decode error with its message.
 */
module Jwt {
  import opened Common

  /** The claims the services read: `sub` (section 4.1.2 of RFC 7519) and `exp` (section 4.1.4). */
  datatype Claims = Claims(sub: Option<string>, exp: Option<int>)

  datatype Token =
    | Signed(claims: Claims, key: string, alg: string)
    | Unreadable(error: string)   // not three base64url segments, bad JSON, ...

  /** The outcome of `jwt.decode(token, SECRET_KEY, algorithms=[ALGORITHM])`. */
  datatype Decoded =
    | Decoded(claims: Claims)
    | ExpiredSignature             // ExpiredSignatureError, itself a JWTError
    | JwtError(detail: string)     // any other JWTError, with its message

  const AlgNotAllowed := "The specified alg value is not allowed"
  const SignatureFailed := "Signature verification failed."

  /** The algorithm both services default to: HMAC with SHA-256 (section 3.2 of RFC 7518). */
  const HS256 := "HS256"

  /**
   * Decoding with the verifier's key and its single allowed algorithm at time
   * `now` (seconds). The algorithm and signature are checked before the
   * claims; a token is expired once `now` is past its `exp`.
   */
  function Decode(t: Token, key: string, alg: string, now: int): (d: Decoded)
    ensures d.Decoded? <==>
      t.Signed? && t.alg == alg && t.key == key && !(t.claims.exp.Some? && t.claims.exp.value < now)
    ensures d.Decoded? ==> d.claims == t.claims
    ensures d.ExpiredSignature? ==> t.Signed? && t.key == key && t.claims.exp.Some? && t.claims.exp.value < now
    ensures t.Signed? && t.key != key ==> d.JwtError?
  {
    match t
    case Unreadable(e) => JwtError(e)
    case Signed(c, k, a) =>
      if a != alg then JwtError(AlgNotAllowed)
      else if k != key then JwtError(SignatureFailed)
      else if c.exp.Some? && c.exp.value < now then ExpiredSignature
      else Decoded(c)
  }

  /**
   * The access token login issues for subject `sub` at time `iat`, valid for
   * `ttl` seconds. The issuing helper is not part of this model; the token
   * carries `sub` and `exp = iat + ttl`.
   */
  function Mint(sub: string, key: string, alg: string, iat: int, ttl: int): (t: Token)
    ensures forall now ::
              Decode(t, key, alg, now)
              == if now <= iat + ttl then Decoded(Claims(Some(sub), Some(iat + ttl))) else ExpiredSignature
    ensures forall other, now :: other != key ==> Decode(t, other, alg, now) == JwtError(SignatureFailed)
  {
    Signed(Claims(Some(sub), Some(iat + ttl)), key, alg)
  }
}
