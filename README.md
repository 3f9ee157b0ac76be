# Users, orders and bearer tokens: a Dafny model

Two cooperating HTTP services. The **user service** registers accounts,
logs them in, and issues JSON Web Tokens (RFC 7519) as bearer tokens
(section 2.1 of RFC 6750). Its `/verify-token` endpoint checks a token and
answers with the subject's id and email. The **order service** keeps orders
per user. Create asks the user service to check the caller's token. Get,
list, update and delete check the token locally with the shared secret.
They then act only on orders whose owner is the caller.

The model has one module per source file:

- `OrderCrud` (`order_service/crud.py`): the order table. It is a class
  holding `map<int, Order>` and an auto-increment counter. Create, update
  and delete are methods that change it in place.
- `OrderMain` (`order_service/main.py`): `get_current_user` as a function
  over the decode result. The routes map its result and the table's answers
  to 401, 404 or the order.
- `UserCrud` (`user_service/crud.py`): the user table. It is a class holding
  `map<int, User>` and an auto-increment counter.
- `UserRoutes` (`user_service/routes.py`): `register` and `login`.
- `UserMain` (`user_service/main.py`): the `verify_token` decision ladder,
  as a function over the decode result and the user rows.

These helper modules stand in for code that is not part of this model:

- `Decimal`: Python's `str(n)` and `int(s)` on the `sub` claim, and the
  proof that `int(str(n)) == n`.
- `Jwt`: a symbolic token and the three outcomes of `jwt.decode`. These are
  the claims, an expired signature, or a decode error with its message.
- `Passwords`: a symbolic salted hash.

`Scenario` is a client of the contracts. It walks through registration,
login, an order, and a second user who cannot see that order.

The model follows the code as written, including these behaviours a client
might not expect:

- If the user service does not confirm the token, `create_order` does not
  answer 401. `response.raise_for_status()` (or a transport error) escapes
  the handler, which gives a 500. This is `Uncaught` in the model.
- A `sub` claim that is not a decimal integer makes `int(...)` raise
  ValueError. That is not a `JWTError`, so it escapes both token checks.
- `update_order` overwrites both product and quantity. It is not a partial
  update.
- Nothing checks that quantity is positive.
- The get route answers 404 "Order not found". Update and delete answer 404
  "Order not found or not yours".
- A token counts as expired once the current second is past its `exp`
  (`exp < now`). This is the rule of the decoding library the services call,
  so a token is still accepted in the second named by its `exp`.
- Emails are compared as the MySQL email column compares them, without
  regard to letter case. `Alice@example.com` is the address
  `alice@example.com` already registered.

## Model

| member | source | states |
|---|---|---|
| `Decimal.ParseInt` | order_service/main.py:94 | `int(s)` accepts only an optional sign and ASCII digits: the empty string and any string with a non-digit after the first character are rejected (ValueError) |
| `Decimal.ToDecimal` | user_service/routes.py:25 | `str(user.id)`: a non-empty text that starts with `-` exactly for a negative id, and is otherwise only digits |
| `Decimal.ParseIntOfToDecimal` | user_service/routes.py:25 | reading the subject `str(user.id)` back with `int` gives exactly `user.id` |
| `Decimal.ToDecimalInjective` | user_service/routes.py:25 | two ids with the same subject text are the same id |
| `Jwt.Decode` | user_service/main.py:96 | a token decodes to its claims only if it was signed with the verifier's key and algorithm and is not past `exp`; an expired signature is reported only for a correctly signed token; a token signed with another key is always a decode error |
| `Jwt.Mint` | user_service/routes.py:25 | the issued token decodes with the same key to `sub` and `exp = iat + ttl` until `exp`, then as expired; with any other key it fails signature verification |
| `Passwords.HashPassword` | user_service/crud.py:9 | the stored hash accepts the registered password and no other |
| `UserCrud.SameEmailIsEqualUpToCase` | user_service/crud.py:17 | the filter `User.email == email` matches exactly the emails of the same length that agree at every position once ASCII letter case is ignored |
| `UserCrud.UniqueEmailFirst` | user_service/crud.py:16-17 | when emails are unique up to case, the row an email lookup finds is exactly the row whose email matches |
| `UserCrud.InsertKeepsUniqueEmails` | user_service/routes.py:14-17 | inserting a row whose email is not taken, in any letter case, keeps emails unique up to case |
| `UserCrud.UserTable.CreateUser` | user_service/crud.py:8-14 | exactly one new row under a fresh id, with the input's name and email and the hash of the password; the client's id is ignored and the other rows are unchanged; the email, in any letter case, is then found |
| `UserCrud.UserTable.GetUserByEmail` | user_service/crud.py:16-17 | None exactly when no row's email matches, ignoring letter case; otherwise a stored row whose email matches (the lowest such id) |
| `UserRoutes.Register` | user_service/routes.py:12-17 | an email already taken in any letter case gives 400 "Email already registered" and leaves the store unchanged; a fresh email inserts the new user; either way the email is registered afterwards, and unique emails stay unique |
| `UserRoutes.Login` | user_service/routes.py:19-26 | an unknown email and a wrong password both give the same 401 "Invalid credentials"; the email is matched ignoring letter case; otherwise a "bearer" token whose subject is the decimal text of the user's id; the store is not modified |
| `UserMain.VerifyToken` | user_service/main.py:88-111 | expired gives 401 "Token has expired"; any other decode error gives 401 "Invalid token: " and its message; a missing `sub` gives 401 "Token missing 'sub' claim"; a non-numeric `sub` escapes as ValueError; an unknown id gives 401 "User not found"; success returns exactly that user's id and email; every HTTP error is a 401 |
| `UserMain.IssuedTokenVerifies` | user_service/main.py:96-106 | a token issued at login for an existing user verifies to that user's id and email until it expires, then to "Token has expired" |
| `UserMain.ForeignTokenRefused` | user_service/main.py:110-111 | a token signed with another secret is refused with 401 "Invalid token: Signature verification failed." |
| `OrderCrud.OrderTable.CreateOrder` | order_service/crud.py:6-16 | exactly one new order under a fresh id, owned by the given caller, with the body's product and quantity and status "pending"; all earlier orders unchanged |
| `OrderCrud.OrderTable.GetOrder` | order_service/crud.py:18-19 | the order with that id, whoever owns it, or None when there is none |
| `OrderCrud.OrderTable.GetOrdersByUser` | order_service/crud.py:21-22 | exactly the orders owned by the user, each once, and no others |
| `OrderCrud.OrderTable.UpdateOrder` | order_service/crud.py:24-36 | not the caller's order (absent, or owned by someone else): None and the table unchanged; otherwise product and quantity both overwritten, id, owner and status kept, and no other order changed |
| `OrderCrud.OrderTable.DeleteOrder` | order_service/crud.py:39-49 | not the caller's order: None and the table unchanged; otherwise exactly that order removed and returned |
| `OrderMain.GetCurrentUser` | order_service/main.py:87-96 | every decode error (expired included) and a missing `sub` give the same 401 "Invalid token"; a non-numeric `sub` escapes as ValueError; success is the integer value of `sub` |
| `OrderMain.LocalCheckAgreesWithVerifier` | order_service/main.py:87-96 | the local check accepts every token the user service accepts, with the same id; a token the local check accepts for an existing user is accepted by the user service too; the local check fails with 401 only where the user service does, and escapes with ValueError exactly where it does |
| `OrderMain.IssuedTokenAuthenticates` | order_service/main.py:90-94 | a token issued at login for id n authenticates as n until it expires, then gives 401 "Invalid token" |
| `OrderMain.ReplyTo` | user_service/main.py:88-111 | how the framework answers the result of `verify_token`: the identity exactly when the check succeeded, its HTTP status when it raised an `HTTPException`, and 500 when an exception escaped (`raise_for_status` on the order side is in `CreateOrderRoute`) |
| `OrderMain.DelegatedCheckOfIssuedToken` | order_service/main.py:130 | a token issued at login for an existing user comes back from the user service as that user's identity until it expires, then as a 401 |
| `OrderMain.CreateOrderRoute` | order_service/main.py:119-132 | an empty token gives 401 "Token missing" and no change; a confirmed identity becomes the owner of the new order (the body carries no owner); any other reply escapes as an httpx exception with the table unchanged |
| `OrderMain.GetOrderRoute` | order_service/main.py:136-144 | the order only if it exists and its owner is the caller; otherwise 404 "Order not found"; a failed token check gives its 401 or escaped ValueError |
| `OrderMain.ForeignOrderLooksMissing` | order_service/main.py:137-144 | another user's order gives the same answer as an order that does not exist |
| `OrderMain.ReadMyOrdersRoute` | order_service/main.py:149-154 | after the token check, exactly the caller's orders |
| `OrderMain.UpdateOrderRoute` | order_service/main.py:157-167 | a failed token check changes nothing; a None from the table becomes 404 "Order not found or not yours" and nothing changes; otherwise the updated order |
| `OrderMain.DeleteOrderRoute` | order_service/main.py:170-179 | a failed token check changes nothing; a None from the table becomes 404 "Order not found or not yours" and nothing changes; otherwise the removed order |

## Left out

- JWT signing and decoding are symbolic. A token carries its claims, key and algorithm. There is no HMAC-SHA-256 and no base64url. Apart from `exp`, the decoder's other claim checks (`nbf`, `iat`, `aud`, a `sub` that is not a string) are not modelled. For a readable token, the only error messages modelled are the wrong-algorithm and bad-signature ones.
- The helper that creates access tokens is not part of this model. `Jwt.Mint` assumes that it writes `sub` and `exp = now + ttl`. The signing time, the lifetime and the secret are parameters.
- Password hashing and checking are not part of this model. A symbolic hash stands in for them, and the hasher's salt is a parameter.
- The HTTP call in `order_service/services.py` is an input to `CreateOrderRoute`: the identity, an error status, or no answer. Timeouts, a malformed JSON body and the `print` in that file are not modelled.
- The framework's `HTTPBearer` dependency is not modelled. It rejects a missing or non-bearer `Authorization` header, and also a bearer header with an empty credential, before any handler runs. So the "Token missing" branch of `create_order` (order_service/main.py:126-127) cannot be reached in the running service. The handlers are modelled as written, so that branch is included.
- OrderCrud.OrderTable.CreateOrder: ids and quantities are unbounded integers. In the database they are 32-bit signed INT columns, so a quantity outside that range makes the commit raise DataError, which escapes as a 500; the same holds for `UpdateOrder`. The user table's id column is defined in `user_service/models.py`, which is not part of this model.
- OrderCrud.OrderTable.CreateOrder: the next id is the previous one plus one. The database's auto-increment promises only a fresh key: it can leave gaps, and before MySQL 8.0 a restart can reset the counter. The model's ids are one possible fresh choice. The contracts and `Scenario` name that choice (`old(nextId)`, ids 1 and 2). The ownership and unique-email properties use only the fact that the id is fresh.
- Request validation (`EmailStr`, types, the 422 response) is not modelled. Nor are column limits (`String(255)`, `String(50)`, `nullable`), response-model filtering, or the `created_at` timestamp.
- Decimal.ParseInt: does not model the limit of 4300 digits that Python 3.11 and later impose on `int()`, beyond which `int()` raises ValueError and the model returns the number. Subjects written by login are far shorter.
- Decimal.ParseInt: rejects surrounding whitespace, `_` digit separators and non-ASCII digits, which Python's `int()` accepts. For such a `sub` the model escapes as ValueError where the source would go on. Subjects written by login never have them.
- UserCrud.UserTable.GetUserByEmail: the email comparison folds only ASCII letter case. The table's collation is set in `user_service/models.py`, which is not part of this model. MySQL's default collations also fold non-ASCII letters, ignore accents, and with PAD SPACE ignore trailing spaces; none of these are modelled.
- UserCrud.UserTable.GetUserByEmail: the query has no ORDER BY, so the database may return any matching row. The model returns the one with the lowest id. Under the unique-email invariant there is only one (`UserCrud.UniqueEmailFirst`).
- OrderCrud.OrderTable.GetOrdersByUser: the rows come back in key order. The database promises no order.
- The table methods return the updated or removed record as a value. In the source it is the same ORM object the session changed, and that aliasing is not modelled.
- Concurrency is not modelled: the check-then-insert race in `register`, and requests running at the same time. Each table operation is one atomic step.
- Logging, request-timing middleware, Prometheus metrics, the health and test endpoints (`/health`, `/orders/test`, `/users/test`, `/test-current-user`), lifespan hooks, environment loading, engine and session setup, and server startup are not modelled. They are I/O and plumbing.
