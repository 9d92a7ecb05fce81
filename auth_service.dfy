/** src/services/authService.js: registration, login, the profile of the
    caller and its update. bcrypt's `hash`/`compare` and jwt's `sign` are
    parameters; each write is specified by a transition function of the old
    user table, and the properties of the flows are proved about those
    functions. */
module AuthService {
  import opened Common
  import opened Auth
  import opened UserRepo

  const EmailInUse := "Email already in use"
  const UsernameTaken := "Username already taken"
  const InvalidCredentials := "Invalid email or password"
  const UserNotFound := "User not found"

  /** The fields `registerUser` takes. */
  datatype RegisterData = RegisterData(username: string, email: string, password: string)

  /** `{ user, token }` of register and login. */
  datatype AuthResponse = AuthResponse(user: PublicUser, token: string)

  /** The outcome of a write together with the user table after it. */
  datatype UserTransition<T> = UserTransition(result: Result<T>, rows: map<int, UserRow>)

  /** The claims `generateToken` signs: the user's id, email and role, and
      nothing else (in particular no password). */
  function TokenPayload(u: PublicUser): (p: Payload)
    ensures p.userId == u.userId && p.email == u.email && p.role == u.role
  {
    Payload(u.userId, u.email, u.role)
  }

  /** `generateToken`. The expiry option goes to the codec and is not modelled. */
  function GenerateToken(u: PublicUser, sign: Payload -> string): string {
    sign(TokenPayload(u))
  }

  /** `registerUser`, with `freshId` the id storage hands out next. */
  function RegisterTransition(rows: map<int, UserRow>, freshId: int, data: RegisterData,
                              hash: string -> string, sign: Payload -> string): UserTransition<AuthResponse>
  {
    if EmailIn(rows, data.email) then UserTransition(Err(Conflict(EmailInUse)), rows)
    else if UsernameIn(rows, data.username) then UserTransition(Err(Conflict(UsernameTaken)), rows)
    else
      var row := UserRow(freshId, data.username, data.email, hash(data.password), User);
      var u := Project(row);
      UserTransition(Ok(AuthResponse(u, GenerateToken(u, sign))), rows[freshId := row])
  }

  /** Whether a profile update has no empty field: the only caller drops
      every falsy field before the call. */
  predicate AllTruthy(d: UserUpdate) {
    && (d.username.Some? ==> d.username.value != "")
    && (d.email.Some? ==> d.email.value != "")
    && (d.password.Some? ==> d.password.value != "")
  }

  /** `updateUserProfile`: NotFound, then the email key, then the username key
      (each checked only when it changes), then the password is hashed and
      the row is written. */
  function UpdateProfileTransition(rows: map<int, UserRow>, userId: int, d: UserUpdate,
                                   hash: string -> string): UserTransition<PublicUser>
  {
    if userId !in rows then UserTransition(Err(NotFound(UserNotFound)), rows)
    else if Truthy(d.email) && d.email.value != rows[userId].email && EmailIn(rows, d.email.value) then
      UserTransition(Err(Conflict(EmailInUse)), rows)
    else if Truthy(d.username) && d.username.value != rows[userId].username && UsernameIn(rows, d.username.value) then
      UserTransition(Err(Conflict(UsernameTaken)), rows)
    else
      var stored := UserUpdate(d.username, d.email, if Truthy(d.password) then Some(hash(d.password.value)) else d.password);
      var row := ApplyUserUpdate(rows[userId], stored);
      UserTransition(Ok(Project(row)), rows[userId := row])
  }

  // ---------------------------------------------------------------- operations

  method RegisterUser(users: UserTable, data: RegisterData, hash: string -> string, sign: Payload -> string)
    returns (r: Result<AuthResponse>)
    requires users.Valid()
    modifies users
    ensures users.Valid()
    ensures UserTransition(r, users.rows) == RegisterTransition(old(users.rows), old(users.nextId), data, hash, sign)
  {
    if users.FindUserByEmail(data.email).Some? {
      return Err(Conflict(EmailInUse));
    }
    if users.FindUserByUsername(data.username).Some? {
      return Err(Conflict(UsernameTaken));
    }
    var hashed := hash(data.password);
    var u := users.CreateUser(NewUser(data.username, data.email, hashed, User));
    r := Ok(AuthResponse(u, GenerateToken(u, sign)));
  }

  /** `loginUser`: one answer for an unknown email and for a wrong password;
      on success the user without its password and a token for it. */
  function LoginUser(users: UserTable, email: string, password: string,
                     compare: (string, string) -> bool, sign: Payload -> string): (r: Result<AuthResponse>)
    reads users
    requires users.Valid()
    ensures r.Ok? <==> exists id :: id in users.rows && users.rows[id].email == email && compare(password, users.rows[id].password)
    ensures r.Err? ==> r.error == Unauthenticated(InvalidCredentials)
    ensures r.Ok? ==> && r.value.user.userId in users.rows
                      && r.value.user == Project(users.rows[r.value.user.userId])
                      && r.value.user.email == email
                      && r.value.token == sign(TokenPayload(r.value.user))
  {
    match users.FindUserByEmail(email)
    case None => Err(Unauthenticated(InvalidCredentials))
    case Some(row) =>
      if !compare(password, row.password) then Err(Unauthenticated(InvalidCredentials))
      else
        var u := Project(row);
        Ok(AuthResponse(u, GenerateToken(u, sign)))
  }

  /** `getCurrentUser`. */
  function GetCurrentUser(users: UserTable, userId: int): (r: Result<PublicUser>)
    reads users
    requires users.Valid()
    ensures userId !in users.rows <==> r == Err(NotFound(UserNotFound))
    ensures r.Ok? ==> r.value == Project(users.rows[userId]) && r.value.userId == userId
  {
    match users.FindUserById(userId)
    case None => Err(NotFound(UserNotFound))
    case Some(u) => Ok(u)
  }

  method UpdateUserProfile(users: UserTable, userId: int, d: UserUpdate, hash: string -> string)
    returns (r: Result<PublicUser>)
    requires users.Valid() && AllTruthy(d)
    modifies users
    ensures users.Valid()
    ensures UserTransition(r, users.rows) == UpdateProfileTransition(old(users.rows), userId, d, hash)
  {
    var current := users.FindUserById(userId);
    if current.None? {
      return Err(NotFound(UserNotFound));
    }
    var user := current.value;
    if Truthy(d.email) && d.email.value != user.email {
      if users.FindUserByEmail(d.email.value).Some? {
        return Err(Conflict(EmailInUse));
      }
    }
    if Truthy(d.username) && d.username.value != user.username {
      if users.FindUserByUsername(d.username.value).Some? {
        return Err(Conflict(UsernameTaken));
      }
    }
    var stored := d;
    if Truthy(d.password) {
      stored := stored.(password := Some(hash(d.password.value)));
    }
    var updated := users.UpdateUser(userId, stored);
    r := Ok(updated);
  }

  // ---------------------------------------------------------------- properties

  /** Registration checks the email before the username, and a successful
      one stores role USER and the hash of the password, never the password. */
  lemma RegisterStoresHashedUser(rows: map<int, UserRow>, freshId: int, data: RegisterData,
                                 hash: string -> string, sign: Payload -> string)
    ensures var t := RegisterTransition(rows, freshId, data, hash, sign);
      && (EmailIn(rows, data.email) ==> t.result == Err(Conflict(EmailInUse)))
      && (t.result.Ok? <==> !EmailIn(rows, data.email) && !UsernameIn(rows, data.username))
      && (t.result.Ok? ==> && t.rows == rows[freshId := UserRow(freshId, data.username, data.email, hash(data.password), User)]
                           && t.result.value.user.role == User
                           && t.result.value.user == Project(t.rows[freshId]))
      && (t.result.Err? ==> t.rows == rows)
  {
  }

  /** Registration keeps both unique keys unique. */
  lemma {:induction false} RegisterKeepsKeysUnique(rows: map<int, UserRow>, freshId: int, data: RegisterData,
                                                   hash: string -> string, sign: Payload -> string)
    requires KeysUnique(rows) && freshId !in rows
    ensures KeysUnique(RegisterTransition(rows, freshId, data, hash, sign).rows)
  {
    var t := RegisterTransition(rows, freshId, data, hash, sign);
    if t.result.Ok? {
      assert forall id :: id in rows ==> rows[id].email != data.email && rows[id].username != data.username;
    }
  }

  /** A token the service issues authenticates as the user it was issued to,
      given a codec whose verify decodes what its sign encoded. */
  lemma {:induction false} IssuedTokenAuthenticates(u: PublicUser, sign: Payload -> string, verify: string -> VerifyOutcome)
    requires verify(GenerateToken(u, sign)).Verified?
    requires PayloadOf(verify(GenerateToken(u, sign)).claims) == TokenPayload(u)
    ensures Authenticate(Some(BearerPrefix + GenerateToken(u, sign)), verify) == Ok(Identity(u.userId, u.email, u.role))
  {
    AuthenticateBearer(GenerateToken(u, sign), verify);
  }

  /** An unknown email and a wrong password are answered alike. */
  lemma LoginFailuresIndistinguishable(users: UserTable, unknown: string, known: string, p1: string, p2: string,
                                       compare: (string, string) -> bool, sign: Payload -> string)
    requires users.Valid()
    requires !EmailIn(users.rows, unknown)
    requires exists id :: id in users.rows && users.rows[id].email == known && !compare(p2, users.rows[id].password)
    ensures LoginUser(users, unknown, p1, compare, sign) == LoginUser(users, known, p2, compare, sign)
  {
  }

  /** A user who has just registered can log in with the same password,
      given a `compare` that accepts a password against its own hash. */
  lemma {:induction false} RegisteredUserCanLogIn(users: UserTable, before: map<int, UserRow>, freshId: int, data: RegisterData,
                                                  hash: string -> string, compare: (string, string) -> bool, sign: Payload -> string)
    requires users.Valid()
    requires RegisterTransition(before, freshId, data, hash, sign).result.Ok?
    requires users.rows == RegisterTransition(before, freshId, data, hash, sign).rows
    requires compare(data.password, hash(data.password))
    ensures LoginUser(users, data.email, data.password, compare, sign) ==
      RegisterTransition(before, freshId, data, hash, sign).result
  {
    var t := RegisterTransition(before, freshId, data, hash, sign);
    assert users.rows[freshId].email == data.email;
    var r := LoginUser(users, data.email, data.password, compare, sign);
    assert r.Ok?;
    assert users.rows[r.value.user.userId].email == data.email;
  }

  /** A profile update changes only the caller's row, never its id or role,
      stores a hashed password, and keeps both unique keys unique. */
  lemma {:induction false} UpdateProfileTouchesOnlyCaller(rows: map<int, UserRow>, userId: int, d: UserUpdate, hash: string -> string)
    requires KeysUnique(rows) && AllTruthy(d)
    ensures var t := UpdateProfileTransition(rows, userId, d, hash);
      && t.rows.Keys == rows.Keys
      && (forall id :: id in rows && id != userId ==> t.rows[id] == rows[id])
      && (userId in rows ==> t.rows[userId].userId == rows[userId].userId && t.rows[userId].role == rows[userId].role)
      && (t.result.Ok? && d.password.Some? ==> t.rows[userId].password == hash(d.password.value))
      && (t.result.Ok? ==> t.result.value == Project(t.rows[userId]))
      && KeysUnique(t.rows)
  {
    var t := UpdateProfileTransition(rows, userId, d, hash);
    if t.result.Ok? {
      var row := t.rows[userId];
      assert forall id :: id in rows && id != userId ==> rows[id].email != row.email && rows[id].username != row.username;
    }
  }

  /** Resubmitting one's own email or username is not a conflict. */
  lemma OwnKeysDoNotConflict(rows: map<int, UserRow>, userId: int, password: Option<string>, hash: string -> string)
    requires userId in rows
    ensures UpdateProfileTransition(rows, userId, UserUpdate(Some(rows[userId].username), Some(rows[userId].email), password), hash).result.Ok?
  {
  }
}
