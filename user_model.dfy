/** The `User` collection: backend/models/user.model.js. */
module UserModel {
  import opened Wrappers
  import opened Mongo

  /** The `role` enum. */
  datatype Role = Admin | Client

  /** The value `role` takes when a document gives none. */
  const DefaultRole: Role := Client

  /** The string stored for a role. */
  function RoleName(r: Role): string {
    match r
    case Admin => "Admin"
    case Client => "Client"
  }

  /** The enum validator: only the two names are roles. */
  function ParseRole(s: string): (r: Option<Role>)
    ensures r.Some? <==> s == "Admin" || s == "Client"
    ensures r.Some? ==> RoleName(r.value) == s
  {
    if s == "Admin" then Some(Admin)
    else if s == "Client" then Some(Client)
    else None
  }

  /** Every role survives the trip through its stored name. */
  lemma RoleNameRoundTrip(r: Role)
    ensures ParseRole(RoleName(r)) == Some(r)
  {
  }

  /** A user document; `createdAt`/`updatedAt` of the schema's timestamps are not modelled for users. */
  datatype User = User(username: string, passwordHash: string, role: Role)

  /** The `required` validators: both strings must be non-empty. */
  predicate SchemaValid(u: User) {
    u.username != "" && u.passwordHash != ""
  }

  /** The `unique` index on `username`. */
  ghost predicate UniqueUsernames(users: map<ObjectId, User>) {
    forall a, b :: a in users && b in users && users[a].username == users[b].username ==> a == b
  }

  /** Whether some user already holds the name: `User.findOne({ username })`. */
  predicate UsernameTaken(users: map<ObjectId, User>, name: string) {
    exists id :: id in users && users[id].username == name
  }
}
