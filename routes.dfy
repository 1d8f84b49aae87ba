/**
 * The guarded endpoints that change the store: each guard of
 * the route files under backend/routes runs before its handler, and a guard that answers
 * leaves the store as it was. The unguarded auth endpoints call their
 * handlers directly and have no method here.
 */
module Routes {
  import opened Wrappers
  import opened Mongo
  import opened Http
  import opened UserModel
  import opened AccessRequestModel
  import opened ProjectModel
  import opened Database
  import opened Session
  import opened AuthMiddleware
  import opened AuthController
  import opened ProjectController
  import opened RequestController
  import opened ReportController

  /** The reply a guard gives when it answers the request itself. */
  function Refused<T>(g: GuardResult): (r: Reply<T>)
    requires g.Respond?
    ensures r == Err(g.status, g.message)
  {
    Err(g.status, g.message)
  }

  /**
   * POST /api/requests: requireAuth, then createRequest. Only a signed-in
   * Client adds a request; no session gives 401 and an Admin gets the
   * handler's 403.
   */
  method PostRequest(db: Db, session: Option<SessionUser>, projectId: ObjectId, now: nat)
    returns (r: Reply<(ObjectId, AccessRequest)>)
    requires db.Valid()
    modifies db
    ensures db.Valid()
    ensures session.None? ==> r == Err(StatusUnauthorized, NotAuthenticated) && unchanged(db)
    ensures session.Some? && session.value.role == Admin ==> r == Err(StatusForbidden, OnlyClients)
    ensures db.requests != old(db.requests) ==> session.Some? && session.value.role == Client
    ensures db.users == old(db.users) && db.projects == old(db.projects)
  {
    var g := RequireAuth(session);
    if g.Respond? {
      return Refused(g);
    }
    r := CreateRequest(db, session.value, projectId, now);
  }

  /**
   * POST /api/requests/:id/decision: requireAdmin, then
   * processRequestDecision. An access list changes only when an Admin
   * approves.
   */
  method PostDecision(db: Db, session: Option<SessionUser>, rid: ObjectId, status: string, now: nat)
    returns (r: Reply<()>)
    requires db.Valid()
    modifies db
    ensures db.Valid()
    ensures RequireAdmin(session).Respond? ==> r == Err(StatusForbidden, AdminOnly) && unchanged(db)
    ensures db.requests != old(db.requests) ==> session.Some? && session.value.role == Admin
    ensures db.projects != old(db.projects) ==>
      session.Some? && session.value.role == Admin && ParseDecision(status) == Some(Approved)
  {
    var g := RequireAdmin(session);
    if g.Respond? {
      return Refused(g);
    }
    r := ProcessRequestDecision(db, session.value, rid, status, now);
  }

  /** POST /api/projects: requireAdmin, then createProject. */
  method PostProject(db: Db, session: Option<SessionUser>, f: ProjectFields, now: nat)
    returns (r: Reply<(ObjectId, Project)>)
    requires db.Valid()
    modifies db
    ensures db.Valid()
    ensures RequireAdmin(session).Respond? ==> r == Err(StatusForbidden, AdminOnly) && unchanged(db)
    ensures r.Ok? ==>
      && session.Some? && session.value.role == Admin && r.value.0 in db.projects
      && db.projects[r.value.0].createdBy == Some(session.value.id)
  {
    var g := RequireAdmin(session);
    if g.Respond? {
      return Refused(g);
    }
    r := CreateProject(db, session.value, f, now);
  }

  /** PUT /api/projects/:id: requireAdmin, then updateProject. */
  method PutProject(db: Db, session: Option<SessionUser>, id: ObjectId, f: ProjectFields, now: nat)
    returns (r: Reply<Project>)
    requires db.Valid()
    modifies db
    ensures db.Valid()
    ensures RequireAdmin(session).Respond? ==> r == Err(StatusForbidden, AdminOnly) && unchanged(db)
    ensures db.projects != old(db.projects) ==> session.Some? && session.value.role == Admin
  {
    var g := RequireAdmin(session);
    if g.Respond? {
      return Refused(g);
    }
    r := UpdateProject(db, id, f, now);
  }

  /** DELETE /api/projects/:id: requireAdmin, then deleteProject. */
  method DeleteProjectRoute(db: Db, session: Option<SessionUser>, id: ObjectId) returns (r: Reply<Project>)
    requires db.Valid()
    modifies db
    ensures db.Valid()
    ensures RequireAdmin(session).Respond? ==> r == Err(StatusForbidden, AdminOnly) && unchanged(db)
    ensures db.projects != old(db.projects) ==> session.Some? && session.value.role == Admin
  {
    var g := RequireAdmin(session);
    if g.Respond? {
      return Refused(g);
    }
    r := DeleteProject(db, id);
  }

  /** POST /api/users: requireAdmin, then the sign-up handler. */
  method PostUser(db: Db, session: Option<SessionUser>, body: SignupBody, hash: string -> string)
    returns (r: Reply<ObjectId>)
    requires db.Valid()
    modifies db
    ensures db.Valid()
    ensures RequireAdmin(session).Respond? ==> r == Err(StatusForbidden, AdminOnly) && unchanged(db)
    ensures db.users != old(db.users) ==> session.Some? && session.value.role == Admin
  {
    var g := RequireAdmin(session);
    if g.Respond? {
      return Refused(g);
    }
    r := CreateUser(db, body, hash);
  }

  /**
   * POST /api/auth/signup has no guard: anyone, with no session at all,
   * who asks for the Admin role under a free name gets an Admin account.
   */
  method PublicSignup(db: Db, body: SignupBody, hash: string -> string) returns (r: Reply<ObjectId>)
    requires db.Valid()
    requires body.role == Some("Admin")
    modifies db
    ensures db.Valid()
    ensures r.Ok? <==> !UsernameTaken(old(db.users), body.username) && body.username != "" && hash(body.password) != ""
    ensures r.Ok? ==> r.value in db.users && db.users[r.value].role == Admin
  {
    r := CreateUser(db, body, hash);
  }

  /** GET /api/reports: requireAdmin, then fetchReports; the guard's answer is a JSON error. */
  method GetReports(db: Db, session: Option<SessionUser>, serialize: ReportRow -> string, fault: Fault)
    returns (reply: ReportReply)
    requires db.Valid()
    ensures RequireAdmin(session).Respond? ==> reply == JsonError(StatusForbidden, AdminOnly)
    ensures reply.Stream? ==> session.Some? && session.value.role == Admin
  {
    var g := RequireAdmin(session);
    if g.Respond? {
      return JsonError(g.status, g.message);
    }
    reply := FetchReports(db, serialize, fault);
  }
}
