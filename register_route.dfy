/** `/api/auth/register`: validates a sign-up, refuses an email already in
    use, stores the user with a hashed password and the role "USER", and
    answers with the user minus the hash. */
module RegisterRoute {
  import opened Seqs
  import opened Strings
  import opened Store

  datatype UserInput = UserInput(name: string, email: string, password: string)

  /** The user as the reply shows it: every stored field but the hash. */
  datatype PublicUser = PublicUser(id: string, name: string, email: string, role: string, createdAt: int)

  /** `userSchema`. String minimums count UTF-16 code units, as
      JavaScript's `length` does. Whether a string is an email address is
      decided by `isEmail`. */
  predicate ValidUserInput(input: UserInput, isEmail: string -> bool)
  {
    Utf16Length(input.name) >= 2 && isEmail(input.email) && Utf16Length(input.password) >= 6
  }

  /** `const { passwordHash, ...userWithoutPassword } = user` */
  function Strip(u: UserRow): (p: PublicUser)
    ensures p.id == u.id && p.name == u.name && p.email == u.email
    ensures p.role == u.role && p.createdAt == u.createdAt
  {
    PublicUser(u.id, u.name, u.email, u.role, u.createdAt)
  }

  /** The POST handler's decision; on 201 the body is the row to insert.
      `hash` is the password hash function, `newId` and `now` the store's
      fresh id and clock. */
  function Register(
    users: seq<UserRow>, body: Parsed<UserInput>, isEmail: string -> bool,
    hash: string -> string, newId: string, now: int): Response<UserRow>
  {
    if body.Misshapen? || !ValidUserInput(body.value, isEmail) then Fail(BAD_REQUEST)
    else if HasKey(users, UserEmail, body.value.email) then Fail(CONFLICT)
    else if HasKey(users, UserId, newId) then Fail(SERVER_ERROR)
    else
      var input := body.value;
      Response(CREATED, Some(UserRow(newId, input.name, input.email, hash(input.password), "USER", now)))
  }

  /** The reply: the decision with the hash removed from the user. */
  function Reply(r: Response<UserRow>): (reply: Response<PublicUser>)
    ensures reply.status == r.status
    ensures reply.body.Some? <==> r.body.Some?
    ensures r.body.Some? ==> reply.body.value == Strip(r.body.value)
  {
    match r.body
    case None => Fail(r.status)
    case Some(u) => Response(r.status, Some(Strip(u)))
  }

  /** Registration answers 400 exactly to a body failing the schema, 409
      exactly to a valid body whose email is taken and 500 exactly when the
      store refuses the id; every other request is registered. A created user has the
      name and email sent, the hash of the password sent, and role "USER":
      registering never makes an admin. */
  lemma RegisterSpec(
    users: seq<UserRow>, body: Parsed<UserInput>, isEmail: string -> bool,
    hash: string -> string, newId: string, now: int)
    ensures var r := Register(users, body, isEmail, hash, newId, now);
      && (r.status == BAD_REQUEST <==> body.Misshapen? || !ValidUserInput(body.value, isEmail))
      && (r.status == CONFLICT <==>
            body.Shaped? && ValidUserInput(body.value, isEmail) && HasKey(users, UserEmail, body.value.email))
      && (r.status == SERVER_ERROR <==>
            body.Shaped? && ValidUserInput(body.value, isEmail) && !HasKey(users, UserEmail, body.value.email) &&
            HasKey(users, UserId, newId))
      && (r.status in {BAD_REQUEST, CONFLICT, SERVER_ERROR, CREATED})
      && (r.status == CREATED <==> r.body.Some?)
      && (r.status == CREATED ==>
            var u := r.body.value;
            && body.Shaped?
            && u.id == newId && u.name == body.value.name && u.email == body.value.email
            && u.passwordHash == hash(body.value.password)
            && u.role == "USER" && !IsAdmin(Some(Token(u.id, u.role)))
            && !HasKey(users, UserEmail, u.email))
  {
  }

  /** POST `/api/auth/register` against the store: emails stay unique. */
  method PostRegister(
    db: Database, body: Parsed<UserInput>, isEmail: string -> bool,
    hash: string -> string, newId: string, now: int)
    returns (reply: Response<PublicUser>)
    requires db.Valid()
    modifies db
    ensures db.Valid()
    ensures var r := Register(old(db.users), body, isEmail, hash, newId, now);
      && reply == Reply(r)
      && db.users == if r.status == CREATED then old(db.users) + [r.body.value] else old(db.users)
    ensures db.products == old(db.products) && db.orders == old(db.orders) && db.invoices == old(db.invoices)
  {
    if body.Misshapen? || !ValidUserInput(body.value, isEmail) {
      return Fail(BAD_REQUEST);
    }
    var input := body.value;
    if HasKey(db.users, UserEmail, input.email) {
      return Fail(CONFLICT);
    }
    if HasKey(db.users, UserId, newId) {
      return Fail(SERVER_ERROR);
    }
    var user := UserRow(newId, input.name, input.email, hash(input.password), "USER", now);
    AppendKeepsKeysUnique(db.users, user, UserId);
    AppendKeepsKeysUnique(db.users, user, UserEmail);
    db.users := db.users + [user];
    reply := Response(CREATED, Some(Strip(user)));
  }
}
