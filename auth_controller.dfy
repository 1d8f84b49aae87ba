/**
 * Sign-up, login, "who am I" and logout: backend/controllers/auth.controller.js.
 * bcrypt is the function `hash` (a parameter, since its internals are not
 * modelled); comparing a password with a stored hash is `hash(password) ==
 * stored`.
 */
module AuthController {
  import opened Wrappers
  import opened Mongo
  import opened Http
  import opened UserModel
  import opened Database
  import opened Session

  const UsernameExists := "Username already exists"
  const UserCreated := "User created"
  const InvalidCredentials := "Invalid credentials"
  const LoginSuccessful := "Login successful"
  const LoggedOut := "Logged out"
  /** The message of the schema's `required` validators, as one constant. */
  const UserValidationFailed := "User validation failed"
  /** The message of the TypeError raised when `req.session` is missing. */
  const NoSessionObject := "Cannot read properties of undefined (reading 'user')"

  /** The body of POST /auth/signup and POST /users; `role` is absent when not sent. */
  datatype SignupBody = SignupBody(username: string, password: string, role: Option<string>)

  /** The body of POST /auth/login. */
  datatype Credentials = Credentials(username: string, password: string)

  /** `role === "Admin" ? "Admin" : "Client"`: only the exact string "Admin" yields an Admin. */
  function CoerceRole(requested: Option<string>): (r: Role)
    ensures r == Admin <==> requested == Some("Admin")
    ensures requested.None? ==> r == DefaultRole
  {
    if requested == Some("Admin") then Admin else Client
  }

  /** The document `createUser` stores for a body. */
  function NewUser(body: SignupBody, hash: string -> string): (u: User)
    ensures u.username == body.username && u.passwordHash == hash(body.password)
    ensures u.role == CoerceRole(body.role)
  {
    User(body.username, hash(body.password), CoerceRole(body.role))
  }

  /**
   * `createUser`: 400 when the name is taken; a 500 validation error when a
   * required field would be empty; otherwise one new user with the hashed
   * password and the coerced role.
   */
  method CreateUser(db: Db, body: SignupBody, hash: string -> string) returns (r: Reply<ObjectId>)
    requires db.Valid()
    modifies db
    ensures db.Valid()
    ensures db.projects == old(db.projects) && db.requests == old(db.requests)
    ensures UsernameTaken(old(db.users), body.username) ==>
      r == Err(StatusBadRequest, UsernameExists) && db.users == old(db.users)
    ensures !UsernameTaken(old(db.users), body.username) && !UserModel.SchemaValid(NewUser(body, hash)) ==>
      r == Err(StatusServerError, UserValidationFailed) && db.users == old(db.users)
    ensures !UsernameTaken(old(db.users), body.username) && UserModel.SchemaValid(NewUser(body, hash)) ==>
      && r.Ok? && r.status == StatusCreated && r.message == UserCreated
      && r.value !in old(db.users)
      && db.users == old(db.users)[r.value := NewUser(body, hash)]
  {
    if UsernameTaken(db.users, body.username) {
      return Err(StatusBadRequest, UsernameExists);
    }
    var user := NewUser(body, hash);
    if !UserModel.SchemaValid(user) {
      return Err(StatusServerError, UserValidationFailed);
    }
    var id := db.NewId();
    db.users := db.users[id := user];
    r := Ok(StatusCreated, UserCreated, id);
  }

  /** The user a name and password identify, if any. */
  ghost predicate Matches(users: map<ObjectId, User>, id: ObjectId, c: Credentials, hash: string -> string) {
    id in users && users[id].username == c.username && users[id].passwordHash == hash(c.password)
  }

  /**
   * `checkUser`: an unknown name and a wrong password give the same 400
   * reply and leave the session alone; a match writes `{id, username, role}`
   * of the stored user into the session.
   */
  method CheckUser(db: Db, slot: SessionSlot, c: Credentials, hash: string -> string)
    returns (r: Reply<SessionUser>)
    requires db.Valid()
    modifies slot
    ensures r.Ok? <==> exists id :: Matches(db.users, id, c, hash)
    ensures r.Err? ==> r == Err(StatusBadRequest, InvalidCredentials) && slot.user == old(slot.user)
    ensures r.Ok? ==>
      && r.status == StatusOk && r.message == LoginSuccessful
      && Matches(db.users, r.value.id, c, hash)
      && r.value == SessionUser(r.value.id, db.users[r.value.id].username, db.users[r.value.id].role)
      && slot.user == Some(r.value)
  {
    if !UsernameTaken(db.users, c.username) {
      assert forall id :: !Matches(db.users, id, c, hash);
      return Err(StatusBadRequest, InvalidCredentials);
    }
    var id :| id in db.users && db.users[id].username == c.username;
    var user := db.users[id];
    if hash(c.password) != user.passwordHash {
      assert forall other :: Matches(db.users, other, c, hash) ==> other == id;
      return Err(StatusBadRequest, InvalidCredentials);
    }
    assert Matches(db.users, id, c, hash);
    var su := SessionUser(id, user.username, user.role);
    slot.user := Some(su);
    r := Ok(StatusOk, LoginSuccessful, su);
  }

  /**
   * `getCurrentUser`: 401 without a session user, otherwise that user as it
   * stands. A request with no session object at all fails reading its `user`.
   */
  function GetCurrentUser(slot: SessionSlot?): (r: Reply<SessionUser>)
    reads slot
    ensures slot == null ==> r.Err? && r.status == StatusServerError
    ensures slot != null && slot.user.None? ==> r == Err(StatusUnauthorized, "Not authenticated")
    ensures slot != null && slot.user.Some? ==> r.Ok? && r.status == StatusOk && r.value == slot.user.value
  {
    if slot == null then Err(StatusServerError, NoSessionObject)
    else if slot.user.None? then Err(StatusUnauthorized, "Not authenticated")
    else Ok(StatusOk, "", slot.user.value)
  }

  /** `logoutUser`: succeeds with no session; otherwise destroys it, so no user remains. */
  method LogoutUser(slot: SessionSlot?) returns (r: Reply<()>)
    modifies slot
    ensures r == Ok(StatusOk, LoggedOut, ())
    ensures slot != null ==> slot.user == None
  {
    if slot != null {
      slot.user := None;
    }
    r := Ok(StatusOk, LoggedOut, ());
  }

  /**
   * A sign-up with a fresh name followed by a login with the same password
   * succeeds, and the session then holds the new user with the coerced role.
   */
  method SignupThenLogin(db: Db, slot: SessionSlot, body: SignupBody, hash: string -> string)
    returns (signup: Reply<ObjectId>, login: Reply<SessionUser>)
    requires db.Valid()
    requires !UsernameTaken(db.users, body.username)
    requires body.username != "" && hash(body.password) != ""
    modifies db, slot
    ensures db.Valid()
    ensures signup.Ok? && login.Ok?
    ensures slot.user == Some(SessionUser(signup.value, body.username, CoerceRole(body.role)))
  {
    signup := CreateUser(db, body, hash);
    login := CheckUser(db, slot, Credentials(body.username, body.password), hash);
    assert Matches(db.users, signup.value, Credentials(body.username, body.password), hash);
  }
}
