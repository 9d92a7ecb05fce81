/** src/controllers/authController.js: the request handlers of registration
    and of the caller's own profile. Each handler passes only the fields it
    names to the service, and the profile handlers act on the identity that
    authentication attached, never on an id taken from the request. */
module AuthController {
  import opened Common
  import opened Auth
  import opened UserRepo
  import opened AuthService

  /** A registration body. A client may send `role`; the handler does not read it. */
  datatype RegisterBody = RegisterBody(username: string, email: string, password: string, role: Option<string>)

  /** A profile-update body; any field may be absent or empty. */
  datatype ProfileBody = ProfileBody(username: Option<string>, email: Option<string>, password: Option<string>)

  /** The fields `registerHandler` forwards. */
  function RegisterFields(body: RegisterBody): (d: RegisterData)
    ensures d.username == body.username && d.email == body.email && d.password == body.password
  {
    RegisterData(body.username, body.email, body.password)
  }

  /** The update object of `updateMeHandler`: each field only when truthy. */
  function BuildUpdateData(body: ProfileBody): (d: UserUpdate)
    ensures AllTruthy(d)
    ensures d.username == (if Truthy(body.username) then body.username else None)
    ensures d.email == (if Truthy(body.email) then body.email else None)
    ensures d.password == (if Truthy(body.password) then body.password else None)
  {
    UserUpdate(
      if Truthy(body.username) then body.username else None,
      if Truthy(body.email) then body.email else None,
      if Truthy(body.password) then body.password else None)
  }

  /** `registerHandler` (201 on success). */
  method RegisterHandler(users: UserTable, body: RegisterBody, hash: string -> string, sign: Payload -> string)
    returns (r: Result<AuthResponse>)
    requires users.Valid()
    modifies users
    ensures users.Valid()
    ensures UserTransition(r, users.rows) == RegisterTransition(old(users.rows), old(users.nextId), RegisterFields(body), hash, sign)
  {
    r := RegisterUser(users, RegisterFields(body), hash, sign);
  }

  /** `updateMeHandler`: the caller's own row, with the truthy fields of the body. */
  method UpdateMeHandler(users: UserTable, caller: Identity, body: ProfileBody, hash: string -> string)
    returns (r: Result<PublicUser>)
    requires users.Valid()
    modifies users
    ensures users.Valid()
    ensures UserTransition(r, users.rows) == UpdateProfileTransition(old(users.rows), caller.userId, BuildUpdateData(body), hash)
  {
    r := UpdateUserProfile(users, caller.userId, BuildUpdateData(body), hash);
  }

  /** A requested role never reaches the store: registration with any `role`
      in the body has the same outcome as without one, and stores USER. */
  lemma RequestedRoleIgnored(rows: map<int, UserRow>, freshId: int, body: RegisterBody,
                             hash: string -> string, sign: Payload -> string)
    ensures RegisterTransition(rows, freshId, RegisterFields(body), hash, sign) ==
            RegisterTransition(rows, freshId, RegisterFields(body.(role := None)), hash, sign)
    ensures var t := RegisterTransition(rows, freshId, RegisterFields(body), hash, sign);
      t.result.Ok? ==> t.rows[freshId].role == User
  {
  }

  /** An empty field in the body leaves that column as it was: the body
      `{email: ""}` is the empty update. */
  lemma {:induction false} EmptyFieldsLeaveRowUnchanged(rows: map<int, UserRow>, caller: Identity, hash: string -> string)
    requires KeysUnique(rows) && caller.userId in rows
    ensures UpdateProfileTransition(rows, caller.userId, BuildUpdateData(ProfileBody(Some(""), Some(""), Some(""))), hash)
      == UserTransition(Ok(Project(rows[caller.userId])), rows)
  {
    var row := rows[caller.userId];
    assert ApplyUserUpdate(row, UserUpdate(None, None, None)) == row;
    assert rows[caller.userId := row] == rows;
  }
}
