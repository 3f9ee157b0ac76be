/**
 * A client of the two services' specifications: Alice registers, logs in and
 * orders three widgets; Bob cannot see her order; Alice can. A capitalised
 * copy of her email is refused at registration and accepted at login.
 * Everything asserted here follows from the contracts alone.
 */
module Scenario {
  import opened Common
  import opened Jwt
  import opened UserCrud
  import opened UserRoutes
  import opened UserMain
  import opened OrderCrud
  import opened OrderMain

  method AliceAndBob(key: string, now: int, ttl: int)
    requires ttl >= 60
  {
    var users := new UserTable();
    var orders := new OrderTable();

    var alice := Register(users, UserCreate(7, "Alice", "alice@example.com", "a-secret"), "salt-a");
    assert alice.Done? && alice.value.id == 1;
    assert !EmailTaken(users.users, "bob@example.com");
    var bob := Register(users, UserCreate(7, "Bob", "bob@example.com", "b-secret"), "salt-b");
    assert bob.Done? && bob.value.id == 2;

    assert users.users[1].email == "alice@example.com";
    var again := Register(users, UserCreate(3, "Eve", "alice@example.com", "x"), "salt-e");
    assert again == HttpError(400, EmailAlreadyRegistered);

    assert IsFirstWithEmail(users.users, "alice@example.com", 1);
    var wrong := Login(users, UserCreate(0, "", "alice@example.com", "guess"), key, HS256, now, ttl);
    assert wrong == HttpError(401, InvalidCredentials);

    var t1 := Login(users, UserCreate(0, "", "alice@example.com", "a-secret"), key, HS256, now, ttl);
    assert IsFirstWithEmail(users.users, "bob@example.com", 2);
    var t2 := Login(users, UserCreate(0, "", "bob@example.com", "b-secret"), key, HS256, now, ttl);
    assert t1.Done? && t2.Done?;

    // Alice orders: the order service forwards her token to the user service.
    var d1 := Decode(t1.value.accessToken, key, HS256, now + 10);
    DelegatedCheckOfIssuedToken(users.users, 1, key, HS256, now, ttl, now + 10);
    var created := CreateOrderRoute(orders, "t1", OrderCreate("widget", 3), ReplyTo(VerifyToken(d1, users.users)));
    assert created == Done(Order(1, 1, "widget", 3, Pending));

    // Bob asks for order 1 with his own token: 404, as for a missing order.
    var d2 := Decode(t2.value.accessToken, key, HS256, now + 20);
    IssuedTokenAuthenticates(2, key, HS256, now, ttl, now + 20);
    assert GetOrderRoute(orders, d2, 1) == HttpError(404, OrderNotFound);

    // Alice asks for it: she gets it.
    IssuedTokenAuthenticates(1, key, HS256, now, ttl, now + 20);
    var d1Later := Decode(t1.value.accessToken, key, HS256, now + 20);
    assert GetOrderRoute(orders, d1Later, 1) == Done(Order(1, 1, "widget", 3, Pending));
  }

  /** The email column ignores letter case: "Alice@…" is the address "alice@…" registered. */
  method CapitalisedEmail(key: string, now: int, ttl: int) {
    var users := new UserTable();
    var alice := Register(users, UserCreate(0, "Alice", "alice@example.com", "a-secret"), "salt-a");
    assert alice.Done? && alice.value.id == 1;

    SameEmailIsEqualUpToCase("alice@example.com", "Alice@example.com");
    var copy := Register(users, UserCreate(0, "Mallory", "Alice@example.com", "m-secret"), "salt-m");
    assert copy == HttpError(400, EmailAlreadyRegistered);

    assert IsFirstWithEmail(users.users, "Alice@example.com", 1);
    var t := Login(users, UserCreate(0, "", "Alice@example.com", "a-secret"), key, HS256, now, ttl);
    assert t == Done(TokenResponse(Mint("1", key, HS256, now, ttl), Bearer));
  }
}
