/** The `Project` collection: backend/models/project.model.js. */
module ProjectModel {
  import opened Wrappers
  import opened Mongo
  import opened Text

  /** `maxlength` of `phone`, in JavaScript length units. */
  const MaxPhoneLength: nat := 10

  /**
   * A project document. The dates are kept as the ISO text the browser
   * sends and receives; `createdBy` is an optional reference;
   * `clientsWithAccess` is the array of users granted access.
   */
  datatype Project = Project(
    name: string,
    location: string,
    phone: string,
    email: string,
    startDate: string,
    endDate: string,
    createdBy: Option<ObjectId>,
    clientsWithAccess: seq<ObjectId>,
    createdAt: nat,
    updatedAt: nat)

  /** The six `required` strings are all non-empty. */
  predicate RequiredPresent(p: Project) {
    && p.name != "" && p.location != "" && p.phone != ""
    && p.email != "" && p.startDate != "" && p.endDate != ""
  }

  /** What the schema's validators demand of a stored project. */
  predicate SchemaValid(p: Project) {
    RequiredPresent(p) && JsLength(p.phone) <= MaxPhoneLength
  }
}
