/**
 * The three collections as one store. Each handler runs to completion before
 * the next begins, so a handler's reads and writes act on this one state.
 */
module Database {
  import opened Wrappers
  import opened Mongo
  import opened UserModel
  import opened ProjectModel
  import opened AccessRequestModel

  /** A populated user reference: `{_id, username}`. */
  datatype UserRef = UserRef(id: ObjectId, username: string)

  /** `populate("client", "username")`: the referenced user's name, or null when the user is gone. */
  function PopulateUser(users: map<ObjectId, User>, id: ObjectId): (r: Option<UserRef>)
    ensures r.Some? <==> id in users
    ensures r.Some? ==> r.value == UserRef(id, users[id].username)
  {
    if id in users then Some(UserRef(id, users[id].username)) else None
  }

  /** `populate("project")`: the referenced project, or null when it has been deleted. */
  function PopulateProject(projects: map<ObjectId, Project>, id: ObjectId): (r: Option<Project>)
    ensures r.Some? <==> id in projects
    ensures r.Some? ==> r.value == projects[id]
  {
    if id in projects then Some(projects[id]) else None
  }

  /** The user collection's part of the store invariant. */
  ghost predicate UsersOk(users: map<ObjectId, User>, nextId: ObjectId) {
    && (forall id :: id in users ==> id < nextId)
    && UniqueUsernames(users)
    && (forall id :: id in users ==> UserModel.SchemaValid(users[id]))
  }

  /** The project collection's part: schema constraints hold and access lists are duplicate-free. */
  ghost predicate ProjectsOk(projects: map<ObjectId, Project>, nextId: ObjectId) {
    && (forall id :: id in projects ==> id < nextId)
    && (forall id :: id in projects ==> ProjectModel.SchemaValid(projects[id]))
    && (forall id :: id in projects ==> NoDup(projects[id].clientsWithAccess))
  }

  /** The request collection's part: a request names its decider exactly when it is decided. */
  ghost predicate RequestsOk(requests: map<ObjectId, AccessRequest>, nextId: ObjectId) {
    && (forall id :: id in requests ==> id < nextId)
    && (forall id :: id in requests ==> DecisionConsistent(requests[id]))
  }

  class Db {
    var users: map<ObjectId, User>
    var projects: map<ObjectId, Project>
    var requests: map<ObjectId, AccessRequest>
    /** Every identifier below nextId may be in use; none at or above it is. */
    var nextId: ObjectId

    /**
     * The store's invariant: identifiers are below nextId, usernames are
     * unique, each document satisfies its schema, access lists hold no
     * duplicate, and a request names its decider exactly when decided.
     */
    ghost predicate Valid()
      reads this
    {
      UsersOk(users, nextId) && ProjectsOk(projects, nextId) && RequestsOk(requests, nextId)
    }

    /** An empty database. */
    constructor ()
      ensures Valid()
      ensures users == map[] && projects == map[] && requests == map[]
    {
      users, projects, requests := map[], map[], map[];
      nextId := 0;
    }

    /** Draws an identifier that no document holds. */
    method NewId() returns (id: ObjectId)
      requires Valid()
      modifies this`nextId
      ensures Valid()
      ensures id == old(nextId) && id < nextId
      ensures id !in users && id !in projects && id !in requests
    {
      id := nextId;
      nextId := nextId + 1;
    }
  }
}
