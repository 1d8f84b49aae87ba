/**
 * The access-request workflow: backend/controllers/request.controller.js.
 * A Client files a PENDING request for an existing project; an Admin decides
 * it, and an approval adds the client to the project's access list with
 * set semantics. Nothing stops a second decision on the same request, and a
 * denial never takes access away.
 */
module RequestController {
  import opened Wrappers
  import opened Mongo
  import opened Http
  import opened UserModel
  import opened ProjectModel
  import opened AccessRequestModel
  import opened Database
  import opened Session
  import ProjectController

  const OnlyClients := "Only clients can request access"
  const ProjectNotFound := "Project not found"
  const RequestCreated := "Access request created"
  const InvalidStatus := "Invalid status"
  const RequestNotFound := "Request not found"

  /**
   * `createRequest`: 403 unless the caller is a Client, then 404 unless the
   * project exists; otherwise exactly one new PENDING request by the caller
   * for that project, with no decider.
   */
  method CreateRequest(db: Db, caller: SessionUser, projectId: ObjectId, now: nat)
    returns (r: Reply<(ObjectId, AccessRequest)>)
    requires db.Valid()
    modifies db
    ensures db.Valid()
    ensures db.users == old(db.users) && db.projects == old(db.projects)
    ensures caller.role != Client ==>
      r == Err(StatusForbidden, OnlyClients) && db.requests == old(db.requests)
    ensures caller.role == Client && projectId !in old(db.projects) ==>
      r == Err(StatusNotFound, ProjectNotFound) && db.requests == old(db.requests)
    ensures r.Ok? <==> caller.role == Client && projectId in old(db.projects)
    ensures r.Ok? ==>
      && r.status == StatusCreated && r.message == RequestCreated
      && r.value.0 !in old(db.requests)
      && r.value.1 == NewRequest(projectId, caller.id, now)
      && db.requests == old(db.requests)[r.value.0 := r.value.1]
  {
    if caller.role != Client {
      return Err(StatusForbidden, OnlyClients);
    }
    if projectId !in db.projects {
      return Err(StatusNotFound, ProjectNotFound);
    }
    var id := db.NewId();
    var request := NewRequest(projectId, caller.id, now);
    db.requests := db.requests[id := request];
    r := Ok(StatusCreated, RequestCreated, (id, request));
  }

  /** `["APPROVED", "DENIED"].includes(status)`: the decision a body names, if it names one. */
  function ParseDecision(status: string): (d: Option<RequestStatus>)
    ensures d.Some? <==> status == "APPROVED" || status == "DENIED"
    ensures d.Some? ==> d.value != Pending && StatusName(d.value) == status
  {
    if status == "APPROVED" then Some(Approved)
    else if status == "DENIED" then Some(Denied)
    else None
  }

  /** The request after a decision: whatever its status was, it now has the new one and the deciding admin. */
  function Decide(req: AccessRequest, d: RequestStatus, admin: ObjectId, now: nat): (q: AccessRequest)
    ensures q.status == d && q.decidedBy == Some(admin) && q.updatedAt == now
    ensures q.project == req.project && q.client == req.client && q.createdAt == req.createdAt
  {
    req.(status := d, decidedBy := Some(admin), updatedAt := now)
  }

  /** A decision keeps a request consistent: it names its decider exactly when it is decided. */
  lemma DecideKeepsConsistent(req: AccessRequest, d: RequestStatus, admin: ObjectId, now: nat)
    requires d != Pending
    ensures DecisionConsistent(Decide(req, d, admin, now))
  {
  }

  /** A second decision overwrites the first: the earlier status and decider leave no trace. */
  lemma RedecisionOverwrites(req: AccessRequest, d1: RequestStatus, a1: ObjectId, t1: nat,
                             d2: RequestStatus, a2: ObjectId, t2: nat)
    ensures Decide(Decide(req, d1, a1, t1), d2, a2, t2) == Decide(req, d2, a2, t2)
  {
  }

  /**
   * `Project.findByIdAndUpdate(project, { $addToSet: { clientsWithAccess: client } })`:
   * the one project gains the client once; every other project is untouched;
   * a missing project makes it a no-op.
   */
  function GrantAccess(projects: map<ObjectId, Project>, pid: ObjectId, client: ObjectId, now: nat)
    : (r: map<ObjectId, Project>)
    ensures r.Keys == projects.Keys
    ensures forall id :: id in projects && id != pid ==> r[id] == projects[id]
    ensures pid in projects ==>
      r[pid] == projects[pid].(clientsWithAccess := AddToSet(projects[pid].clientsWithAccess, client), updatedAt := now)
  {
    if pid in projects then
      projects[pid := projects[pid].(clientsWithAccess := AddToSet(projects[pid].clientsWithAccess, client), updatedAt := now)]
    else projects
  }

  /**
   * Granting the same access twice leaves the client in the access list
   * exactly once, and the list as the first grant left it.
   */
  lemma {:induction false} GrantTwiceOccursOnce(projects: map<ObjectId, Project>, pid: ObjectId, client: ObjectId, t1: nat, t2: nat)
    requires pid in projects && NoDup(projects[pid].clientsWithAccess)
    ensures var once := GrantAccess(projects, pid, client, t1);
            var twice := GrantAccess(once, pid, client, t2);
            && twice[pid].clientsWithAccess == once[pid].clientsWithAccess
            && Occurrences(twice[pid].clientsWithAccess, client) == 1
  {
    AddToSetOccursOnce(projects[pid].clientsWithAccess, client);
  }

  /** Approval keeps every access list duplicate-free and every project valid. */
  lemma GrantAccessKeepsProjectsOk(projects: map<ObjectId, Project>, nextId: ObjectId, pid: ObjectId, client: ObjectId, now: nat)
    requires ProjectsOk(projects, nextId)
    ensures ProjectsOk(GrantAccess(projects, pid, client, now), nextId)
  {
    if pid in projects {
      AddToSetKeepsNoDup(projects[pid].clientsWithAccess, client);
    }
  }

  /**
   * `processRequestDecision`: a status other than "APPROVED"/"DENIED" is
   * refused with 400 before any lookup; an unknown request gives 404; both
   * change nothing. Otherwise the request takes the decision and the admin
   * as decider, and an approval grants its client access to its project.
   */
  method ProcessRequestDecision(db: Db, caller: SessionUser, rid: ObjectId, status: string, now: nat)
    returns (r: Reply<()>)
    requires db.Valid()
    modifies db
    ensures db.Valid()
    ensures db.users == old(db.users) && db.nextId == old(db.nextId)
    ensures ParseDecision(status).None? ==>
      r == Err(StatusBadRequest, InvalidStatus)
      && db.requests == old(db.requests) && db.projects == old(db.projects)
    ensures ParseDecision(status).Some? && rid !in old(db.requests) ==>
      r == Err(StatusNotFound, RequestNotFound)
      && db.requests == old(db.requests) && db.projects == old(db.projects)
    ensures r.Ok? <==> ParseDecision(status).Some? && rid in old(db.requests)
    ensures r.Ok? ==>
      var d := ParseDecision(status).value;
      var req := old(db.requests)[rid];
      && r.status == StatusOk
      && r.message == (if d == Approved then "Request approved" else "Request denied")
      && db.requests == old(db.requests)[rid := Decide(req, d, caller.id, now)]
      && db.projects == (if d == Approved then GrantAccess(old(db.projects), req.project, req.client, now)
                         else old(db.projects))
  {
    var decision := ParseDecision(status);
    if decision.None? {
      return Err(StatusBadRequest, InvalidStatus);
    }
    if rid !in db.requests {
      return Err(StatusNotFound, RequestNotFound);
    }
    var d := decision.value;
    var req := db.requests[rid];
    DecideKeepsConsistent(req, d, caller.id, now);
    db.requests := db.requests[rid := Decide(req, d, caller.id, now)];
    if d == Approved {
      GrantAccessKeepsProjectsOk(db.projects, db.nextId, req.project, req.client, now);
      db.projects := GrantAccess(db.projects, req.project, req.client, now);
    }
    r := Ok(StatusOk, if d == Approved then "Request approved" else "Request denied", ());
  }

  /** A pending request with its project (null once deleted) and its client's name. */
  datatype PendingView = PendingView(request: AccessRequest, project: Option<Project>, client: Option<UserRef>)

  /** A request of the caller with its project's `{_id, name}` (null once deleted). */
  datatype MyRequestView = MyRequestView(request: AccessRequest, project: Option<(ObjectId, string)>)

  /** `fetchPendingRequests`: exactly the PENDING requests, each joined with its project and client. */
  function FetchPendingRequests(requests: map<ObjectId, AccessRequest>, projects: map<ObjectId, Project>,
                                users: map<ObjectId, User>): (r: Reply<map<ObjectId, PendingView>>)
    ensures r.Ok? && r.status == StatusOk
    ensures r.message == if |r.value| > 0 then "Pending requests fetched" else "No pending requests"
    ensures forall id :: id in r.value <==> id in requests && requests[id].status == Pending
    ensures forall id :: id in r.value ==>
      r.value[id] == PendingView(requests[id], PopulateProject(projects, requests[id].project),
                                 PopulateUser(users, requests[id].client))
  {
    var pending := map id | id in requests && requests[id].status == Pending ::
      PendingView(requests[id], PopulateProject(projects, requests[id].project), PopulateUser(users, requests[id].client));
    Ok(StatusOk, if |pending| > 0 then "Pending requests fetched" else "No pending requests", pending)
  }

  /** `populate("project", "name")`. */
  function ProjectName(projects: map<ObjectId, Project>, id: ObjectId): Option<(ObjectId, string)> {
    if id in projects then Some((id, projects[id].name)) else None
  }

  /** `fetchUserRequests`: exactly the requests whose client is the caller; the reply has no message. */
  function FetchUserRequests(requests: map<ObjectId, AccessRequest>, projects: map<ObjectId, Project>,
                             caller: SessionUser): (r: Reply<map<ObjectId, MyRequestView>>)
    ensures r.Ok? && r.status == StatusOk && r.message == ""
    ensures forall id :: id in r.value <==> id in requests && requests[id].client == caller.id
    ensures forall id :: id in r.value ==>
      r.value[id] == MyRequestView(requests[id], ProjectName(projects, requests[id].project))
  {
    var mine := map id | id in requests && requests[id].client == caller.id ::
      MyRequestView(requests[id], ProjectName(projects, requests[id].project));
    Ok(StatusOk, "", mine)
  }

  /**
   * The walk-through of the workflow: a Client requests access to an existing
   * project, an Admin approves, and the project then appears in the client's
   * own project listing.
   */
  method RequestThenApprove(db: Db, client: SessionUser, admin: SessionUser, pid: ObjectId, t1: nat, t2: nat)
    returns (created: Reply<(ObjectId, AccessRequest)>, decided: Reply<()>)
    requires db.Valid()
    requires client.role == Client && pid in db.projects
    modifies db
    ensures db.Valid()
    ensures created.Ok? && decided.Ok? && created.value.0 in db.requests
    ensures db.requests[created.value.0].status == Approved
    ensures db.requests[created.value.0].decidedBy == Some(admin.id)
    ensures pid in db.projects && client.id in db.projects[pid].clientsWithAccess
    ensures pid in ProjectController.FetchProjects(db.projects, client).value
  {
    created := CreateRequest(db, client, pid, t1);
    assert ParseDecision("APPROVED") == Some(Approved);
    decided := ProcessRequestDecision(db, admin, created.value.0, "APPROVED", t2);
  }
}
