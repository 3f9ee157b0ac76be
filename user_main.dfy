/**
 * The token verifier of the user service (user_service/main.py, POST
 * /verify-token): decode the bearer token, take its subject, and confirm the
 * subject is still a user in the store.
 */
module UserMain {
  import opened Common
  import opened Decimal
  import opened Jwt
  import opened UserCrud

  /** The verifier's 200 body: `{"id": ..., "email": ...}`. */
  datatype Identity = Identity(id: int, email: string)

  const TokenExpired := "Token has expired"
  const InvalidTokenPrefix := "Invalid token: "
  const MissingSub := "Token missing 'sub' claim"
  const UserNotFound := "User not found"

  /**
   * `verify_token` on the decode result `d` and the current user rows. The
   * ladder: an expired signature is reported before any other decode error;
   * then a missing subject; then a subject that is not a number escapes as
   * ValueError; then a subject with no row; otherwise the row's id and email.
   * It only reads the store.
   */
  function VerifyToken(d: Decoded, users: map<int, User>): (r: Outcome<Identity>)
    requires KeyedById(users)
    ensures d.ExpiredSignature? ==> r == HttpError(401, TokenExpired)
    ensures d.JwtError? ==> r == HttpError(401, InvalidTokenPrefix + d.detail)
    ensures d.Decoded? && d.claims.sub.None? ==> r == HttpError(401, MissingSub)
    ensures r.Uncaught? <==> d.Decoded? && d.claims.sub.Some? && ParseInt(d.claims.sub.value).None?
    ensures r.Uncaught? ==> r.exception == ValueError
    ensures r.HttpError? ==> r.status == 401
    ensures r.Done? <==>
      d.Decoded? && d.claims.sub.Some? && ParseInt(d.claims.sub.value).Some?
      && ParseInt(d.claims.sub.value).value in users
    ensures r.Done? ==>
      && Some(r.value.id) == ParseInt(d.claims.sub.value)
      && r.value.id in users && r.value == Identity(users[r.value.id].id, users[r.value.id].email)
    ensures (d.Decoded? && d.claims.sub.Some? && ParseInt(d.claims.sub.value).Some?
             && ParseInt(d.claims.sub.value).value !in users)
            ==> r == HttpError(401, UserNotFound)
  {
    match d
    case ExpiredSignature => HttpError(401, TokenExpired)
    case JwtError(detail) => HttpError(401, InvalidTokenPrefix + detail)
    case Decoded(claims) =>
      match claims.sub
      case None => HttpError(401, MissingSub)
      case Some(sub) =>
        match ParseInt(sub)
        case None => Uncaught(ValueError)
        case Some(id) =>
          if id !in users then HttpError(401, UserNotFound)
          else Done(Identity(users[id].id, users[id].email))
  }

  /**
   * A token issued at login for an existing user verifies to that user's id
   * and email until it expires, and to "Token has expired" afterwards.
   */
  lemma IssuedTokenVerifies(users: map<int, User>, id: int, key: string, alg: string,
                            iat: int, ttl: int, now: int)
    requires KeyedById(users) && id in users
    ensures VerifyToken(Decode(Mint(ToDecimal(id), key, alg, iat, ttl), key, alg, now), users)
            == if now <= iat + ttl then Done(Identity(id, users[id].email)) else HttpError(401, TokenExpired)
  {
    ParseIntOfToDecimal(id);
  }

  /**
   * A token signed with another secret (a rotated key, or a token from
   * elsewhere) is refused as an invalid signature, whatever it claims.
   */
  lemma ForeignTokenRefused(users: map<int, User>, sub: string, signer: string, key: string,
                            alg: string, iat: int, ttl: int, now: int)
    requires KeyedById(users)
    requires signer != key
    ensures VerifyToken(Decode(Mint(sub, signer, alg, iat, ttl), key, alg, now), users)
            == HttpError(401, InvalidTokenPrefix + SignatureFailed)
  {
  }
}
