/**
 * The `/auth` router: `POST /register` and `POST /login` over the `users`
 * collection. Password hashing (the User model's save hook), the password
 * comparison (`user.comparePassword`) and token signing (`jwt.sign`) are the
 * parameters `hash`, `matches` and `sign`; `fault` is a store failure and
 * `now` the clock, in seconds.
 */
module AuthRoutes {
  import opened Wrappers
  import opened TaskSchema
  import opened Http

  const MissingRequiredFields: string := "Missing required fields"
  const EmailInUse: string := "Email already in use"
  const MissingEmailOrPassword: string := "Missing email or password"
  const InvalidCredentials: string := "Invalid credentials"
  const RegisteredMessage: string := "User registered successfully"
  const LoginMessage: string := "Login successful"

  /** `expiresIn: "7d"`, in seconds. */
  const TokenLifetime: int := 7 * 24 * 60 * 60

  /** A stored user; only the hash of the password is kept. */
  datatype User = User(id: UserId, email: string, name: string, passwordHash: string)

  datatype RegisterBody = RegisterBody(email: Option<string>, password: Option<string>, name: Option<string>)
  datatype LoginBody = LoginBody(email: Option<string>, password: Option<string>)

  /** The payload given to `jwt.sign`, with the `iat` and `exp` it adds. */
  datatype Claims = Claims(userId: UserId, email: string, issuedAt: int, expiresAt: int)

  /** JavaScript falsiness of an optional string field: absent or empty. */
  predicate Falsy(v: Option<string>) {
    v.None? || v.value == ""
  }

  function Public(u: User): PublicUser {
    PublicUser(u.id, u.email, u.name)
  }

  /** `jwt.sign({ userId, email }, JWT_SECRET, { expiresIn: "7d" })` at time `now`. */
  function IssueToken(sign: Claims -> string, u: User, now: int): string {
    sign(Claims(u.id, u.email, now, now + TokenLifetime))
  }

  /** Some stored user has exactly this email (no case folding). */
  ghost predicate EmailTaken(users: seq<User>, email: string) {
    exists i :: 0 <= i < |users| && users[i].email == email
  }

  /** Emails and ids are unique, and ids are below the next fresh id. */
  ghost predicate TableInvariant(users: seq<User>, nextId: UserId) {
    && (forall i, j :: 0 <= i < j < |users| ==> users[i].email != users[j].email)
    && (forall i, j :: 0 <= i < j < |users| ==> users[i].id != users[j].id)
    && (forall i :: 0 <= i < |users| ==> users[i].id < nextId)
  }

  /** `User.findOne({ email })`: the position of the first user with that email. */
  function FindByEmail(users: seq<User>, email: string): (r: Option<nat>)
    ensures r.None? <==> !EmailTaken(users, email)
    ensures r.Some? ==> r.value < |users| && users[r.value].email == email
  {
    if users == [] then None
    else if users[0].email == email then Some(0)
    else match FindByEmail(users[1..], email)
      case None =>
        assert forall i :: 1 <= i < |users| ==> users[i] == users[1..][i - 1];
        None
      case Some(k) => Some(k + 1)
  }

  /** The response, new table and next fresh id of `POST /register`. */
  ghost function RegisterSpec(users: seq<User>, nextId: UserId, body: RegisterBody, hash: string -> string,
                              sign: Claims -> string, now: int, fault: Option<string>)
    : (Response, seq<User>, UserId)
  {
    if Falsy(body.email) || Falsy(body.password) || Falsy(body.name) then
      (Failure(400, MissingRequiredFields), users, nextId)
    else if fault.Some? then (Failure(500, fault.value), users, nextId)
    else if EmailTaken(users, body.email.value) then (Failure(400, EmailInUse), users, nextId)
    else
      var u := User(nextId, body.email.value, body.name.value, hash(body.password.value));
      (Response(201, Session(RegisteredMessage, IssueToken(sign, u, now), Public(u))), users + [u], nextId + 1)
  }

  /** The response of `POST /login`. */
  ghost function LoginSpec(users: seq<User>, body: LoginBody, matches: (string, string) -> bool,
                           sign: Claims -> string, now: int, fault: Option<string>): Response
  {
    if Falsy(body.email) || Falsy(body.password) then Failure(400, MissingEmailOrPassword)
    else if fault.Some? then Failure(500, fault.value)
    else if !EmailTaken(users, body.email.value) then Failure(401, InvalidCredentials)
    else
      var i :| 0 <= i < |users| && users[i].email == body.email.value;
      if !matches(body.password.value, users[i].passwordHash) then Failure(401, InvalidCredentials)
      else Response(200, Session(LoginMessage, IssueToken(sign, users[i], now), Public(users[i])))
  }

  class UserTable {
    /** The `users` collection. */
    var users: seq<User>
    /** The next fresh `_id`. */
    var nextId: UserId

    ghost predicate Valid()
      reads this
    {
      TableInvariant(users, nextId)
    }

    constructor ()
      ensures Valid() && users == []
    {
      users, nextId := [], 0;
    }

    /** `POST /register`. */
    method Register(body: RegisterBody, hash: string -> string, sign: Claims -> string, now: int,
                    fault: Option<string>) returns (r: Response)
      requires Valid()
      modifies this
      ensures Valid()
      ensures (r, users, nextId) == RegisterSpec(old(users), old(nextId), body, hash, sign, now, fault)
    {
      if Falsy(body.email) || Falsy(body.password) || Falsy(body.name) {
        return Failure(400, MissingRequiredFields);
      }
      if fault.Some? {
        return Failure(500, fault.value);
      }
      var existing := FindByEmail(users, body.email.value);
      if existing.Some? {
        return Failure(400, EmailInUse);
      }
      var user := User(nextId, body.email.value, body.name.value, hash(body.password.value));
      users := users + [user];
      nextId := nextId + 1;
      var token := IssueToken(sign, user, now);
      r := Response(201, Session(RegisteredMessage, token, Public(user)));
    }

    /** `POST /login`; it only reads the table. */
    method Login(body: LoginBody, matches: (string, string) -> bool, sign: Claims -> string, now: int,
                 fault: Option<string>) returns (r: Response)
      requires Valid()
      ensures r == LoginSpec(users, body, matches, sign, now, fault)
    {
      if Falsy(body.email) || Falsy(body.password) {
        return Failure(400, MissingEmailOrPassword);
      }
      if fault.Some? {
        return Failure(500, fault.value);
      }
      var found := FindByEmail(users, body.email.value);
      if found.None? {
        return Failure(401, InvalidCredentials);
      }
      var user := users[found.value];
      assert forall j :: 0 <= j < |users| && users[j].email == body.email.value ==> j == found.value;
      if !matches(body.password.value, user.passwordHash) {
        return Failure(401, InvalidCredentials);
      }
      var token := IssueToken(sign, user, now);
      r := Response(200, Session(LoginMessage, token, Public(user)));
    }
  }

  /**
   * What `POST /register` promises: a 201 exactly when all three fields are
   * present and the email is new; then exactly one user is appended, with a
   * fresh id and the hashed password, and the answer carries a seven-day
   * token for that user and the user without any password. Any other
   * outcome leaves the table as it was.
   */
  lemma RegisterOutcome(users: seq<User>, nextId: UserId, body: RegisterBody, hash: string -> string,
                        sign: Claims -> string, now: int, fault: Option<string>)
    requires TableInvariant(users, nextId)
    ensures var (r, users', nextId') := RegisterSpec(users, nextId, body, hash, sign, now, fault);
      && TableInvariant(users', nextId')
      && (Falsy(body.email) || Falsy(body.password) || Falsy(body.name) ==> r == Failure(400, MissingRequiredFields))
      && (r.status == 201 <==>
            !Falsy(body.email) && !Falsy(body.password) && !Falsy(body.name) && fault.None?
            && !EmailTaken(users, body.email.value))
      && ((!Falsy(body.email) && !Falsy(body.password) && !Falsy(body.name) && fault.None?
             && EmailTaken(users, body.email.value)) ==> r == Failure(400, EmailInUse))
      && (r.status != 201 ==> users' == users && nextId' == nextId)
      && (r.status == 201 ==>
            var u := User(nextId, body.email.value, body.name.value, hash(body.password.value));
            && users' == users + [u] && nextId' == nextId + 1
            && r.body == Session(RegisteredMessage, sign(Claims(nextId, u.email, now, now + TokenLifetime)),
                                 PublicUser(nextId, u.email, u.name)))
  {
  }

  /**
   * Registering an email that is already stored fails with "Email already
   * in use" and changes nothing; so of two registrations with one email, at
   * most the first succeeds.
   */
  lemma {:induction false} SecondRegistrationRejected(users: seq<User>, nextId: UserId, first: RegisterBody,
                                                      second: RegisterBody, hash: string -> string,
                                                      sign: Claims -> string, now: int, later: int)
    requires TableInvariant(users, nextId)
    requires RegisterSpec(users, nextId, first, hash, sign, now, None).0.status == 201
    requires !Falsy(second.password) && !Falsy(second.name) && second.email == first.email
    ensures var (_, users', nextId') := RegisterSpec(users, nextId, first, hash, sign, now, None);
      RegisterSpec(users', nextId', second, hash, sign, later, None) == (Failure(400, EmailInUse), users', nextId')
  {
    var (_, users', nextId') := RegisterSpec(users, nextId, first, hash, sign, now, None);
    assert users'[|users|].email == first.email.value;
  }

  /**
   * A missing email or password gets 400 "Missing email or password"; an
   * unknown email and a wrong password get the same 401 "Invalid
   * credentials"; a 200 comes exactly from a stored email whose hash matches.
   */
  lemma LoginOutcome(users: seq<User>, nextId: UserId, body: LoginBody, matches: (string, string) -> bool,
                     sign: Claims -> string, now: int)
    requires TableInvariant(users, nextId)
    ensures var r := LoginSpec(users, body, matches, sign, now, None);
      && (Falsy(body.email) || Falsy(body.password) ==> r == Failure(400, MissingEmailOrPassword))
      && (!Falsy(body.email) && !Falsy(body.password) ==> r.status == 200 || r == Failure(401, InvalidCredentials))
      && (r.status == 200 <==>
            !Falsy(body.email) && !Falsy(body.password)
            && exists i :: 0 <= i < |users| && users[i].email == body.email.value
                           && matches(body.password.value, users[i].passwordHash))
      && (forall i ::
            (!Falsy(body.email) && !Falsy(body.password)
             && 0 <= i < |users| && users[i].email == body.email.value
             && matches(body.password.value, users[i].passwordHash)) ==>
            r == Response(200, Session(LoginMessage, sign(Claims(users[i].id, users[i].email, now, now + TokenLifetime)),
                                       PublicUser(users[i].id, users[i].email, users[i].name))))
  {
  }

  /**
   * With a password check that accepts the hash of the same password, a user
   * who has just registered can log in with the same email and password and
   * is given a token for the same id.
   */
  lemma {:induction false} RegisterThenLogin(users: seq<User>, nextId: UserId, body: RegisterBody,
                                             hash: string -> string, matches: (string, string) -> bool,
                                             sign: Claims -> string, now: int, later: int)
    requires TableInvariant(users, nextId)
    requires RegisterSpec(users, nextId, body, hash, sign, now, None).0.status == 201
    requires matches(body.password.value, hash(body.password.value))
    ensures var (_, users', _) := RegisterSpec(users, nextId, body, hash, sign, now, None);
      var u := PublicUser(nextId, body.email.value, body.name.value);
      LoginSpec(users', LoginBody(body.email, body.password), matches, sign, later, None)
        == Response(200, Session(LoginMessage, sign(Claims(nextId, u.email, later, later + TokenLifetime)), u))
  {
    var (_, users', nextId') := RegisterSpec(users, nextId, body, hash, sign, now, None);
    RegisterOutcome(users, nextId, body, hash, sign, now, None);
    var k := |users|;
    assert users'[k].email == body.email.value;
    assert forall j :: 0 <= j < |users'| && users'[j].email == body.email.value ==> j == k;
  }
}
