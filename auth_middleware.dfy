/**
 * The two route guards of backend/middleware/auth.middleware.js. Each looks
 * at `req.session.user` and either answers the request itself or hands it on
 * to the handler (`next()`), never both: the two outcomes are the two
 * constructors of GuardResult.
 */
module AuthMiddleware {
  import opened Wrappers
  import opened Http
  import opened UserModel
  import opened Session

  datatype GuardResult = Next | Respond(status: nat, message: string)

  const NotAuthenticated := "Not authenticated"
  const AdminOnly := "Admin can access this resource"

  /** `requireAuth`: 401 exactly when there is no session user; any role passes. */
  function RequireAuth(user: Option<SessionUser>): (g: GuardResult)
    ensures g.Respond? <==> user.None?
    ensures g.Respond? ==> g == Respond(StatusUnauthorized, NotAuthenticated)
  {
    if user.None? then Respond(StatusUnauthorized, NotAuthenticated) else Next
  }

  /**
   * `requireAdmin`: passes exactly an Admin session user; everyone else, a
   * caller without a session included, gets 403 (not 401).
   */
  function RequireAdmin(user: Option<SessionUser>): (g: GuardResult)
    ensures g.Next? <==> user.Some? && user.value.role == Admin
    ensures g.Respond? ==> g == Respond(StatusForbidden, AdminOnly)
  {
    if user.None? || user.value.role != Admin then Respond(StatusForbidden, AdminOnly) else Next
  }

  /** Whatever requireAdmin admits, requireAuth admits too. */
  lemma AdminGuardIsStricter(user: Option<SessionUser>)
    ensures RequireAdmin(user).Next? ==> RequireAuth(user).Next?
  {
  }

  /** requireAuth admits a Client and an Admin alike. */
  lemma AuthGuardAdmitsEveryRole(u: SessionUser)
    ensures RequireAuth(Some(u)) == Next
  {
  }
}
