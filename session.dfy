/**
 * The express-session record of one browser: `req.session`, whose `user`
 * slot holds the identity written at login.
 */
module Session {
  import opened Wrappers
  import opened Mongo
  import opened UserModel

  /** `{id, username, role}` as written into `req.session.user`. */
  datatype SessionUser = SessionUser(id: ObjectId, username: string, role: Role)

  /** `req.session`: an object whose `user` field the login and logout handlers assign. */
  class SessionSlot {
    var user: Option<SessionUser>

    /** A fresh session carries no user. */
    constructor ()
      ensures user == None
    {
      user := None;
    }
  }

  /** `req.session && req.session.user`, as the guards read it. */
  function UserOf(slot: SessionSlot?): (u: Option<SessionUser>)
    reads slot
    ensures u.Some? <==> slot != null && slot.user.Some?
    ensures u.Some? ==> u == slot.user
  {
    if slot == null then None else slot.user
  }
}
