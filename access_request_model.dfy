/** The `AccessRequest` collection: backend/models/accessRequest.model.js. */
module AccessRequestModel {
  import opened Wrappers
  import opened Mongo

  /** The `status` enum. */
  datatype RequestStatus = Pending | Approved | Denied

  /** The string stored for a status. */
  function StatusName(s: RequestStatus): string {
    match s
    case Pending => "PENDING"
    case Approved => "APPROVED"
    case Denied => "DENIED"
  }

  /** The enum validator: exactly the three names are statuses. */
  function ParseStatus(s: string): (r: Option<RequestStatus>)
    ensures r.Some? <==> s == "PENDING" || s == "APPROVED" || s == "DENIED"
    ensures r.Some? ==> StatusName(r.value) == s
  {
    if s == "PENDING" then Some(Pending)
    else if s == "APPROVED" then Some(Approved)
    else if s == "DENIED" then Some(Denied)
    else None
  }

  /** Every status survives the trip through its stored name. */
  lemma StatusNameRoundTrip(s: RequestStatus)
    ensures ParseStatus(StatusName(s)) == Some(s)
  {
  }

  /**
   * A request document: `project` and `client` are required references,
   * `decidedBy` is optional, and the timestamps come from the schema option.
   */
  datatype AccessRequest = AccessRequest(
    project: ObjectId,
    client: ObjectId,
    status: RequestStatus,
    decidedBy: Option<ObjectId>,
    createdAt: nat,
    updatedAt: nat)

  /** A request as `AccessRequest.create({project, client})` stores it at time now: status takes its default. */
  function NewRequest(project: ObjectId, client: ObjectId, now: nat): (r: AccessRequest)
    ensures r.project == project && r.client == client
    ensures r.status == Pending && r.decidedBy == None
    ensures r.createdAt == now && r.updatedAt == now
  {
    AccessRequest(project, client, Pending, None, now, now)
  }

  /** A request names its decider exactly when it has been decided. */
  predicate DecisionConsistent(r: AccessRequest) {
    r.decidedBy.Some? <==> r.status != Pending
  }
}
