/**
 * The order service's request handling (order_service/main.py): the local
 * token check `get_current_user`, and the routes that map its result and the
 * order table's answers to responses. Get, list, update and delete check the
 * token locally; create delegates the check to the user service.
 */
module OrderMain {
  import opened Common
  import opened Decimal
  import opened Jwt
  import opened UserCrud
  import opened UserMain
  import opened OrderCrud

  const InvalidToken := "Invalid token"
  const TokenMissing := "Token missing"
  const OrderNotFound := "Order not found"
  const NotFoundOrNotYours := "Order not found or not yours"

  /** The httpx exceptions that escape `create_order` when the user service does not confirm the token. */
  const HttpStatusError := "HTTPStatusError"
  const TransportError := "TransportError"

  /**
   * `get_current_user`: any decode error, an expired signature included, and
   * a missing subject all give the same 401 "Invalid token"; a subject that is
   * not a number escapes as ValueError; otherwise the subject's integer value.
   * Whether that user still exists is not checked here.
   */
  function GetCurrentUser(d: Decoded): (r: Outcome<int>)
    ensures r.HttpError? ==> r == HttpError(401, InvalidToken)
    ensures !d.Decoded? ==> r == HttpError(401, InvalidToken)
    ensures d.Decoded? && d.claims.sub.None? ==> r == HttpError(401, InvalidToken)
    ensures r.Uncaught? <==> d.Decoded? && d.claims.sub.Some? && ParseInt(d.claims.sub.value).None?
    ensures r.Uncaught? ==> r.exception == ValueError
    ensures r.Done? ==> d.Decoded? && d.claims.sub.Some? && ParseInt(d.claims.sub.value) == Some(r.value)
  {
    match d
    case Decoded(claims) =>
      if claims.sub.None? then HttpError(401, InvalidToken)
      else (
        match ParseInt(claims.sub.value)
        case None => Uncaught(ValueError)
        case Some(id) => Done(id))
    case ExpiredSignature => HttpError(401, InvalidToken)
    case JwtError(_) => HttpError(401, InvalidToken)
  }

  /** The local check accepts every token the user service's check accepts, with the same id. */
  lemma LocalCheckAgreesWithVerifier(d: Decoded, users: map<int, User>)
    requires KeyedById(users)
    ensures VerifyToken(d, users).Done? ==> GetCurrentUser(d) == Done(VerifyToken(d, users).value.id)
    ensures GetCurrentUser(d).Done? && GetCurrentUser(d).value in users ==> VerifyToken(d, users).Done?
    ensures GetCurrentUser(d).HttpError? ==> VerifyToken(d, users).HttpError?
    ensures GetCurrentUser(d).Uncaught? <==> VerifyToken(d, users).Uncaught?
  {
  }

  /**
   * A token issued at login for user `id` authenticates as `id` until it
   * expires; afterwards the local check answers 401 "Invalid token".
   */
  lemma IssuedTokenAuthenticates(id: int, key: string, alg: string, iat: int, ttl: int, now: int)
    ensures GetCurrentUser(Decode(Mint(ToDecimal(id), key, alg, iat, ttl), key, alg, now))
            == if now <= iat + ttl then Done(id) else HttpError(401, InvalidToken)
  {
    ParseIntOfToDecimal(id);
  }

  /**
   * What `validate_current_user` receives from POST /verify-token: the 200
   * identity, an error status, or no response at all.
   */
  datatype UserServiceReply =
    | Verified(identity: Identity)
    | Refused(status: int)
    | Unreachable

  /** The reply the order service sees when the verifier's handler ends in `o`; an escaped exception is a 500. */
  function ReplyTo(o: Outcome<Identity>): (r: UserServiceReply)
    ensures r.Verified? <==> o.Done?
    ensures r.Verified? ==> r.identity == o.value
    ensures o.HttpError? ==> r == Refused(o.status)
    ensures o.Uncaught? ==> r == Refused(500)
  {
    match o
    case Done(identity) => Verified(identity)
    case HttpError(status, _) => Refused(status)
    case Uncaught(_) => Refused(500)
  }

  /**
   * A token issued at login for an existing user, sent by the order service to
   * the user service with the same key, comes back as that user's identity
   * until it expires, and as a 401 afterwards.
   */
  lemma DelegatedCheckOfIssuedToken(users: map<int, User>, id: int, key: string, alg: string,
                                    iat: int, ttl: int, now: int)
    requires KeyedById(users) && id in users
    ensures ReplyTo(VerifyToken(Decode(Mint(ToDecimal(id), key, alg, iat, ttl), key, alg, now), users))
            == if now <= iat + ttl then Verified(Identity(id, users[id].email)) else Refused(401)
  {
    IssuedTokenVerifies(users, id, key, alg, iat, ttl, now);
  }

  /**
   * POST /orders/: an empty token is refused with 401 "Token missing" before
   * anything else; otherwise the user service's reply decides. A confirmed
   * identity becomes the owner of the new order (the body has no owner field);
   * any other reply escapes as an httpx exception and the table is unchanged.
   */
  method CreateOrderRoute(store: OrderTable, token: string, body: OrderCreate, reply: UserServiceReply)
    returns (r: Outcome<Order>)
    requires store.Valid()
    modifies store
    ensures store.Valid()
    ensures token == "" ==> r == HttpError(401, TokenMissing)
    ensures token != "" && reply.Refused? ==> r == Uncaught(HttpStatusError)
    ensures token != "" && reply.Unreachable? ==> r == Uncaught(TransportError)
    ensures !(token != "" && reply.Verified?) ==>
      store.orders == old(store.orders) && store.nextId == old(store.nextId)
    ensures token != "" && reply.Verified? ==>
      && r == Done(Order(old(store.nextId), reply.identity.id, body.product, body.quantity, Pending))
      && r.value.id !in old(store.orders)
      && store.orders == old(store.orders)[r.value.id := r.value]
  {
    if token == "" {
      return HttpError(401, TokenMissing);
    }
    match reply
    case Refused(_) => return Uncaught(HttpStatusError);
    case Unreachable => return Uncaught(TransportError);
    case Verified(identity) =>
      var order := store.CreateOrder(body, identity.id);
      return Done(order);
  }

  /**
   * GET /{order_id}: the order only when it exists and belongs to the caller;
   * otherwise 404 "Order not found", so another user's order cannot be told
   * apart from a missing one.
   */
  function GetOrderRoute(store: OrderTable, d: Decoded, orderId: int): (r: Outcome<Order>)
    reads store
    requires store.Valid()
    ensures !GetCurrentUser(d).Done? ==> r == GetCurrentUser(d).PropagateFailure()
    ensures r.Done? <==> GetCurrentUser(d).Done? && Owns(store.orders, orderId, GetCurrentUser(d).value)
    ensures r.Done? ==> r.value == store.orders[orderId] && r.value.id == orderId
    ensures GetCurrentUser(d).Done? && !Owns(store.orders, orderId, GetCurrentUser(d).value) ==>
      r == HttpError(404, OrderNotFound)
  {
    match GetCurrentUser(d)
    case Done(caller) =>
      if Owns(store.orders, orderId, caller) then Done(store.orders[orderId])
      else HttpError(404, OrderNotFound)
    case _ => GetCurrentUser(d).PropagateFailure()
  }

  /** For any caller, asking for someone else's order looks exactly like asking for an order that does not exist. */
  lemma ForeignOrderLooksMissing(store: OrderTable, d: Decoded, orderId: int, missing: int)
    requires store.Valid()
    requires GetCurrentUser(d).Done?
    requires orderId in store.orders && store.orders[orderId].userId != GetCurrentUser(d).value
    requires missing !in store.orders
    ensures GetOrderRoute(store, d, orderId) == GetOrderRoute(store, d, missing) == HttpError(404, OrderNotFound)
  {
  }

  /** GET /orders/me: exactly the caller's orders, in key order. */
  method ReadMyOrdersRoute(store: OrderTable, d: Decoded) returns (r: Outcome<seq<Order>>)
    requires store.Valid()
    ensures !GetCurrentUser(d).Done? ==> r == GetCurrentUser(d).PropagateFailure()
    ensures r.Done? <==> GetCurrentUser(d).Done?
    ensures r.Done? ==>
      && (forall o :: o in r.value ==>
            o.id in store.orders && store.orders[o.id] == o && o.userId == GetCurrentUser(d).value)
      && (forall id :: Owns(store.orders, id, GetCurrentUser(d).value) ==> store.orders[id] in r.value)
      && IdsIncreasing(r.value)
  {
    var caller := GetCurrentUser(d);
    if !caller.Done? {
      return caller.PropagateFailure();
    }
    var mine := store.GetOrdersByUser(caller.value);
    return Done(mine);
  }

  /**
   * PUT /orders/{order_id}: after a successful local check, the table's
   * update; its None becomes 404 "Order not found or not yours". A failed
   * check or a foreign order leaves the table unchanged.
   */
  method UpdateOrderRoute(store: OrderTable, d: Decoded, orderId: int, data: OrderCreate)
    returns (r: Outcome<Order>)
    requires store.Valid()
    modifies store
    ensures store.Valid() && store.nextId == old(store.nextId)
    ensures !GetCurrentUser(d).Done? ==>
      r == GetCurrentUser(d).PropagateFailure() && store.orders == old(store.orders)
    ensures GetCurrentUser(d).Done? && !Owns(old(store.orders), orderId, GetCurrentUser(d).value) ==>
      r == HttpError(404, NotFoundOrNotYours) && store.orders == old(store.orders)
    ensures GetCurrentUser(d).Done? && Owns(old(store.orders), orderId, GetCurrentUser(d).value) ==>
      && r == Done(Order(orderId, GetCurrentUser(d).value, data.product, data.quantity,
                         old(store.orders)[orderId].status))
      && store.orders == old(store.orders)[orderId := r.value]
  {
    var caller := GetCurrentUser(d);
    if !caller.Done? {
      return caller.PropagateFailure();
    }
    var updated := store.UpdateOrder(orderId, caller.value, data);
    if updated.None? {
      return HttpError(404, NotFoundOrNotYours);
    }
    return Done(updated.value);
  }

  /**
   * DELETE /orders/{order_id}: after a successful local check, the table's
   * delete; its None becomes 404 "Order not found or not yours". A failed
   * check or a foreign order leaves the table unchanged.
   */
  method DeleteOrderRoute(store: OrderTable, d: Decoded, orderId: int) returns (r: Outcome<Order>)
    requires store.Valid()
    modifies store
    ensures store.Valid() && store.nextId == old(store.nextId)
    ensures !GetCurrentUser(d).Done? ==>
      r == GetCurrentUser(d).PropagateFailure() && store.orders == old(store.orders)
    ensures GetCurrentUser(d).Done? && !Owns(old(store.orders), orderId, GetCurrentUser(d).value) ==>
      r == HttpError(404, NotFoundOrNotYours) && store.orders == old(store.orders)
    ensures GetCurrentUser(d).Done? && Owns(old(store.orders), orderId, GetCurrentUser(d).value) ==>
      r == Done(old(store.orders)[orderId]) && store.orders == old(store.orders) - {orderId}
  {
    var caller := GetCurrentUser(d);
    if !caller.Done? {
      return caller.PropagateFailure();
    }
    var deleted := store.DeleteOrder(orderId, caller.value);
    if deleted.None? {
      return HttpError(404, NotFoundOrNotYours);
    }
    return Done(deleted.value);
  }
}
