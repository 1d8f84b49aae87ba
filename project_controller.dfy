/**
 * The project registry handlers: backend/controllers/project.controller.js.
 * The two listings read the collection; create, update and delete change it.
 * A missing or empty field of a request body is the empty string, which is
 * falsy in JavaScript just as a missing field is.
 */
module ProjectController {
  import opened Wrappers
  import opened Mongo
  import opened Text
  import opened Http
  import opened UserModel
  import opened ProjectModel
  import opened Database
  import opened Session

  const PhoneTooLong := "Phone must be max 10 digits"
  const ProjectNotFound := "Project not found"
  /** The message of the schema's `required` validators, as one constant. */
  const ProjectValidationFailed := "Project validation failed"

  /** The fields a create or update body may carry. */
  datatype ProjectFields = ProjectFields(
    name: string, location: string, phone: string,
    email: string, startDate: string, endDate: string)

  /** The projection `select("name location clientsWithAccess")`. */
  datatype AccessSummary = AccessSummary(name: string, location: string, clientsWithAccess: seq<ObjectId>)

  /** The phone check both create and update make before touching the store. */
  predicate PhoneTooLongFor(phone: string) {
    JsLength(phone) > MaxPhoneLength
  }

  /** Whether a caller may see a project: an Admin sees all, anyone else the ones granted to them. */
  predicate CanSee(caller: SessionUser, p: Project) {
    caller.role == Admin || caller.id in p.clientsWithAccess
  }

  /** The listing message shared by both listings. */
  function ListMessage(count: nat): string {
    if count > 0 then "Projects fetched" else "No projects found"
  }

  /** `fetchProjects`: every project for an Admin, otherwise exactly those whose access list holds the caller. */
  function FetchProjects(projects: map<ObjectId, Project>, caller: SessionUser): (r: Reply<map<ObjectId, Project>>)
    ensures r.Ok? && r.status == StatusOk && r.message == ListMessage(|r.value|)
    ensures forall id :: id in r.value ==> id in projects && r.value[id] == projects[id]
    ensures forall id :: id in projects ==>
      (id in r.value <==> caller.role == Admin || caller.id in projects[id].clientsWithAccess)
    ensures caller.role == Admin ==> r.value == projects
  {
    var visible := map id | id in projects && CanSee(caller, projects[id]) :: projects[id];
    Ok(StatusOk, ListMessage(|visible|), visible)
  }

  /** `getAllProjectsForRequestAccess`: every project, cut down to name, location and access list. */
  function GetAllProjectsForRequestAccess(projects: map<ObjectId, Project>): (r: Reply<map<ObjectId, AccessSummary>>)
    ensures r.Ok? && r.status == StatusOk && r.message == ListMessage(|r.value|)
    ensures r.value.Keys == projects.Keys
    ensures forall id :: id in r.value ==>
      r.value[id] == AccessSummary(projects[id].name, projects[id].location, projects[id].clientsWithAccess)
  {
    var all := map id | id in projects :: AccessSummary(projects[id].name, projects[id].location, projects[id].clientsWithAccess);
    Ok(StatusOk, ListMessage(|all|), all)
  }

  /** The document `Project.create` would store for a body, created by `creator` at time now. */
  function NewProject(f: ProjectFields, creator: ObjectId, now: nat): (p: Project)
    ensures p.name == f.name && p.location == f.location && p.phone == f.phone
    ensures p.email == f.email && p.startDate == f.startDate && p.endDate == f.endDate
    ensures p.createdBy == Some(creator) && p.clientsWithAccess == []
    ensures p.createdAt == now && p.updatedAt == now
  {
    Project(f.name, f.location, f.phone, f.email, f.startDate, f.endDate, Some(creator), [], now, now)
  }

  /**
   * `createProject`: 400 when the phone is longer than 10; a 500 validation
   * error when a required field is empty; otherwise one new project with the
   * supplied values, created by the session user, with nobody granted yet.
   */
  method CreateProject(db: Db, caller: SessionUser, f: ProjectFields, now: nat) returns (r: Reply<(ObjectId, Project)>)
    requires db.Valid()
    modifies db
    ensures db.Valid()
    ensures db.users == old(db.users) && db.requests == old(db.requests)
    ensures PhoneTooLongFor(f.phone) ==>
      r == Err(StatusBadRequest, PhoneTooLong) && db.projects == old(db.projects)
    ensures !PhoneTooLongFor(f.phone) && !RequiredPresent(NewProject(f, caller.id, now)) ==>
      r == Err(StatusServerError, ProjectValidationFailed) && db.projects == old(db.projects)
    ensures r.Ok? <==> !PhoneTooLongFor(f.phone) && RequiredPresent(NewProject(f, caller.id, now))
    ensures r.Ok? ==>
      && r.status == StatusCreated && r.message == "Project created"
      && r.value.0 !in old(db.projects)
      && r.value.1 == NewProject(f, caller.id, now)
      && db.projects == old(db.projects)[r.value.0 := r.value.1]
  {
    if PhoneTooLongFor(f.phone) {
      return Err(StatusBadRequest, PhoneTooLong);
    }
    var p := NewProject(f, caller.id, now);
    if !RequiredPresent(p) {
      return Err(StatusServerError, ProjectValidationFailed);
    }
    var id := db.NewId();
    db.projects := db.projects[id := p];
    r := Ok(StatusCreated, "Project created", (id, p));
  }

  /** The value a field takes under a partial update: the supplied one when it is truthy. */
  function Pick(supplied: string, current: string): string {
    if supplied != "" then supplied else current
  }

  /**
   * The document `updateProject` writes: each field supplied non-empty
   * replaces the stored one; everything else, the access list and the
   * creator included, keeps its value; the update time becomes now.
   */
  function ApplyUpdate(p: Project, f: ProjectFields, now: nat): (q: Project)
    ensures q.name == (if f.name != "" then f.name else p.name)
    ensures q.location == (if f.location != "" then f.location else p.location)
    ensures q.phone == (if f.phone != "" then f.phone else p.phone)
    ensures q.email == (if f.email != "" then f.email else p.email)
    ensures q.startDate == (if f.startDate != "" then f.startDate else p.startDate)
    ensures q.endDate == (if f.endDate != "" then f.endDate else p.endDate)
    ensures q.createdBy == p.createdBy && q.clientsWithAccess == p.clientsWithAccess
    ensures q.createdAt == p.createdAt && q.updatedAt == now
  {
    p.(name := Pick(f.name, p.name), location := Pick(f.location, p.location),
       phone := Pick(f.phone, p.phone), email := Pick(f.email, p.email),
       startDate := Pick(f.startDate, p.startDate), endDate := Pick(f.endDate, p.endDate),
       updatedAt := now)
  }

  /** An update that passes the phone check keeps a valid project valid. */
  lemma ApplyUpdateKeepsSchema(p: Project, f: ProjectFields, now: nat)
    requires ProjectModel.SchemaValid(p)
    requires f.phone == "" || !PhoneTooLongFor(f.phone)
    ensures ProjectModel.SchemaValid(ApplyUpdate(p, f, now))
  {
  }

  /** Applying the same partial update twice changes nothing more than applying it once. */
  lemma ApplyUpdateIdempotent(p: Project, f: ProjectFields, now: nat)
    ensures ApplyUpdate(ApplyUpdate(p, f, now), f, now) == ApplyUpdate(p, f, now)
  {
  }

  /**
   * `updateProject`: a supplied phone longer than 10 is refused with 400
   * before the project is looked up, so even for an unknown id; an unknown
   * id gives 404; otherwise only the supplied fields change.
   */
  method UpdateProject(db: Db, id: ObjectId, f: ProjectFields, now: nat) returns (r: Reply<Project>)
    requires db.Valid()
    modifies db
    ensures db.Valid()
    ensures db.users == old(db.users) && db.requests == old(db.requests) && db.nextId == old(db.nextId)
    ensures f.phone != "" && PhoneTooLongFor(f.phone) ==>
      r == Err(StatusBadRequest, PhoneTooLong) && db.projects == old(db.projects)
    ensures !(f.phone != "" && PhoneTooLongFor(f.phone)) && id !in old(db.projects) ==>
      r == Err(StatusNotFound, ProjectNotFound) && db.projects == old(db.projects)
    ensures !(f.phone != "" && PhoneTooLongFor(f.phone)) && id in old(db.projects) ==>
      && r == Ok(StatusOk, "Project updated successfully", ApplyUpdate(old(db.projects)[id], f, now))
      && db.projects == old(db.projects)[id := r.value]
  {
    if f.phone != "" && PhoneTooLongFor(f.phone) {
      return Err(StatusBadRequest, PhoneTooLong);
    }
    if id !in db.projects {
      return Err(StatusNotFound, ProjectNotFound);
    }
    var updated := ApplyUpdate(db.projects[id], f, now);
    ApplyUpdateKeepsSchema(db.projects[id], f, now);
    db.projects := db.projects[id := updated];
    r := Ok(StatusOk, "Project updated successfully", updated);
  }

  /**
   * `deleteProject`: 404 for an unknown id; otherwise exactly that project
   * goes. Access requests that name it stay where they are.
   */
  method DeleteProject(db: Db, id: ObjectId) returns (r: Reply<Project>)
    requires db.Valid()
    modifies db
    ensures db.Valid()
    ensures db.users == old(db.users) && db.requests == old(db.requests) && db.nextId == old(db.nextId)
    ensures id !in old(db.projects) ==>
      r == Err(StatusNotFound, ProjectNotFound) && db.projects == old(db.projects)
    ensures id in old(db.projects) ==>
      && r == Ok(StatusOk, "Project deleted successfully", old(db.projects)[id])
      && db.projects == old(db.projects) - {id}
  {
    if id !in db.projects {
      return Err(StatusNotFound, ProjectNotFound);
    }
    r := Ok(StatusOk, "Project deleted successfully", db.projects[id]);
    db.projects := db.projects - {id};
  }
}
