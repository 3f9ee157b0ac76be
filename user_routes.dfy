/**
 * The account routes of the user service (user_service/routes.py):
 * registration, which checks the email before inserting, and login, which
 * checks the credentials and issues a bearer token for the user's id.
 */
module UserRoutes {
  import opened Common
  import opened Passwords
  import opened Decimal
  import opened Jwt
  import opened UserCrud

  /** The login response body (schemas.Token). */
  datatype TokenResponse = TokenResponse(accessToken: Token, tokenType: string)

  const EmailAlreadyRegistered := "Email already registered"
  const InvalidCredentials := "Invalid credentials"
  const Bearer := "bearer"

  /**
   * POST /users/register: 400 when the email is already in the store, which
   * then does not change; otherwise the new row. Unique emails stay unique.
   */
  method Register(table: UserTable, input: UserCreate, salt: string) returns (r: Outcome<User>)
    requires table.Valid()
    modifies table
    ensures table.Valid()
    ensures old(EmailTaken(table.users, input.email)) ==>
      && r == HttpError(400, EmailAlreadyRegistered)
      && table.users == old(table.users) && table.nextId == old(table.nextId)
    ensures !old(EmailTaken(table.users, input.email)) ==>
      && r == Done(User(old(table.nextId), input.name, input.email, HashPassword(input.password, salt)))
      && r.value.id !in old(table.users)
      && table.users == old(table.users)[r.value.id := r.value]
      && table.nextId == old(table.nextId) + 1
    ensures EmailTaken(table.users, input.email)
    ensures old(UniqueEmails(table.users)) ==> UniqueEmails(table.users)
  {
    var existing := table.GetUserByEmail(input.email);
    if existing.Some? {
      return HttpError(400, EmailAlreadyRegistered);
    }
    ghost var before := table.users;
    var u := table.CreateUser(input, salt);
    if UniqueEmails(before) {
      InsertKeepsUniqueEmails(before, u);
    }
    return Done(u);
  }

  /**
   * POST /users/login: 401 "Invalid credentials" both for an unknown email
   * and for a wrong password; on success a bearer token whose subject is the
   * decimal text of the user's id, minted with `key` and `alg` at time `now`
   * and valid for `ttl` seconds. Login has no `modifies`: it never changes
   * the store.
   */
  method Login(table: UserTable, form: UserCreate, key: string, alg: string, now: int, ttl: int)
    returns (r: Outcome<TokenResponse>)
    requires table.Valid()
    ensures r.Done? || r == HttpError(401, InvalidCredentials)
    ensures !EmailTaken(table.users, form.email) ==> r == HttpError(401, InvalidCredentials)
    ensures forall id :: IsFirstWithEmail(table.users, form.email, id) ==>
      if VerifyPassword(form.password, table.users[id].hashedPassword)
      then r == Done(TokenResponse(Mint(ToDecimal(id), key, alg, now, ttl), Bearer))
      else r == HttpError(401, InvalidCredentials)
  {
    var user := table.GetUserByEmail(form.email);
    if user.None? || !VerifyPassword(form.password, user.value.hashedPassword) {
      return HttpError(401, InvalidCredentials);
    }
    var token := Mint(ToDecimal(user.value.id), key, alg, now, ttl);
    return Done(TokenResponse(token, Bearer));
  }
}
