/**
 * The user table of the user service (user_service/crud.py): insert a user
 * and look one up by email. The table maps each primary key to its row;
 * each new key is fresh, taken from an auto-increment counter. Emails are
 * compared as the database compares them, without regard to letter case.
 */
module UserCrud {
  import opened Common
  import opened Passwords

  /** The register and login request body. Its `id` is client-supplied and never stored. */
  datatype UserCreate = UserCreate(id: int, name: string, email: string, password: string)

  /** A stored row. The creation timestamp the database adds is not modelled. */
  datatype User = User(id: int, name: string, email: string, hashedPassword: PasswordHash)

  /** Every row is stored under its own primary key. */
  ghost predicate KeyedById(users: map<int, User>) {
    forall id :: id in users ==> users[id].id == id
  }

  /** An ASCII capital letter becomes its small letter; every other character is kept. */
  function FoldCase(c: char): (f: char)
    ensures 'A' <= c <= 'Z' ==> 'a' <= f <= 'z' && f as int == c as int + 32
    ensures !('A' <= c <= 'Z') ==> f == c
  {
    if 'A' <= c <= 'Z' then (c as int + 32) as char else c
  }

  /** What the email column's case-insensitive collation compares. */
  function EmailKey(email: string): (k: string)
    ensures |k| == |email|
    ensures forall i :: 0 <= i < |email| ==> k[i] == FoldCase(email[i])
  {
    seq(|email|, i requires 0 <= i < |email| => FoldCase(email[i]))
  }

  /** SQL `email = :email` on the users table: equal up to letter case. */
  predicate SameEmail(a: string, b: string) {
    EmailKey(a) == EmailKey(b)
  }

  /**
   * Two emails are the same to the table exactly when they have the same
   * length and agree at every position once letter case is ignored.
   */
  lemma SameEmailIsEqualUpToCase(a: string, b: string)
    ensures SameEmail(a, b) <==> |a| == |b| && forall i :: 0 <= i < |a| ==> FoldCase(a[i]) == FoldCase(b[i])
  {
    if |a| == |b| && forall i :: 0 <= i < |a| ==> FoldCase(a[i]) == FoldCase(b[i]) {
      assert forall i :: 0 <= i < |a| ==> EmailKey(a)[i] == EmailKey(b)[i];
    }
  }

  ghost predicate EmailTaken(users: map<int, User>, email: string) {
    exists id :: id in users && SameEmail(users[id].email, email)
  }

  /** No two rows have the same email to the table: the invariant registration keeps. */
  ghost predicate UniqueEmails(users: map<int, User>) {
    forall i, j :: i in users && j in users && SameEmail(users[i].email, users[j].email) ==> i == j
  }

  /** `id` is the smallest key whose row matches this email: the row a query's `.first()` yields here. */
  ghost predicate IsFirstWithEmail(users: map<int, User>, email: string, id: int) {
    && id in users
    && SameEmail(users[id].email, email)
    && forall j :: j in users && j < id ==> !SameEmail(users[j].email, email)
  }

  /** With unique emails, the row found by email is the only row that matches it. */
  lemma UniqueEmailFirst(users: map<int, User>, email: string, id: int)
    requires UniqueEmails(users)
    ensures IsFirstWithEmail(users, email, id) <==> id in users && SameEmail(users[id].email, email)
  {
  }

  /** Adding a row whose email is not yet taken keeps emails unique. */
  lemma InsertKeepsUniqueEmails(users: map<int, User>, u: User)
    requires UniqueEmails(users)
    requires u.id !in users
    requires !EmailTaken(users, u.email)
    ensures UniqueEmails(users[u.id := u])
  {
  }

  class UserTable {
    var users: map<int, User>
    var nextId: int

    /** Every row is stored under its own id, below the next id to be handed out. */
    ghost predicate Valid()
      reads this
    {
      && nextId >= 1
      && KeyedById(users)
      && forall id :: id in users ==> 1 <= id < nextId
    }

    constructor ()
      ensures Valid() && users == map[] && nextId == 1
    {
      users := map[];
      nextId := 1;
    }

    /**
     * `create_user`: store a new row under a fresh id with the given name and
     * email and the hash of the password, ignoring the client's id.
     */
    method CreateUser(input: UserCreate, salt: string) returns (u: User)
      requires Valid()
      modifies this
      ensures Valid()
      ensures u == User(old(nextId), input.name, input.email, HashPassword(input.password, salt))
      ensures u.id !in old(users) && users == old(users)[u.id := u]
      ensures nextId == old(nextId) + 1
      ensures EmailTaken(users, input.email)
    {
      u := User(nextId, input.name, input.email, HashPassword(input.password, salt));
      users := users[nextId := u];
      nextId := nextId + 1;
      assert SameEmail(users[u.id].email, input.email);
    }

    /**
     * `get_user_by_email`: a row matching this email, or None when there is none.
     * The query has no ORDER BY; the model scans keys upwards and returns the
     * first match.
     */
    method GetUserByEmail(email: string) returns (r: Option<User>)
      requires Valid()
      ensures r.None? <==> !EmailTaken(users, email)
      ensures r.Some? ==> IsFirstWithEmail(users, email, r.value.id) && users[r.value.id] == r.value
    {
      var i := 1;
      while i < nextId
        invariant 1 <= i <= nextId
        invariant forall id :: id in users && id < i ==> !SameEmail(users[id].email, email)
      {
        if i in users && SameEmail(users[i].email, email) {
          return Some(users[i]);
        }
        i := i + 1;
      }
      return None;
    }
  }
}
