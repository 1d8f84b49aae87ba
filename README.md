# Project access control, modelled in Dafny

This project models the access-control core of a small project-management
application. It has an Express/MongoDB back end and a React front end. Two
roles are involved:

- Admins register projects (name, location, phone, e-mail, start and end
  date) and decide access requests.
- Clients sign up, ask for access to a project, and see the projects
  granted to them.

An approval adds the client to the project's `clientsWithAccess` list with
set semantics. A streamed JSON report lists every request, newest first,
joined with its project and client.

The model, file by file:

- `database.dfy` is the store. The class `Db` holds the three collections as
  maps from identifiers to documents, plus an identifier counter. Its
  invariant `Valid()` says:
  - identifiers are below the counter;
  - usernames are unique;
  - every document meets its schema;
  - access lists hold no duplicate;
  - a request names its decider exactly when it has been decided.
- `user_model.dfy`, `project_model.dfy` and `access_request_model.dfy` are
  the three schemas: datatypes, enums, defaults and field constraints.
- `auth_middleware.dfy` holds the two guards, as functions of the session
  user.
- The state-changing handlers are methods that take the store and say what
  it becomes:
  - `auth_controller.dfy`: sign-up, login, "me" and logout;
  - `project_controller.dfy`: create, update and delete a project;
  - `request_controller.dfy`: file and decide an access request.
- The read-only queries are functions over the maps.
- `report_controller.dfy` models the report as a loop that writes chunks.
  Its results are proved equal to "[" + records joined by "," + "]", or to
  the truncated body when the cursor fails.
- `routes.dfy` puts each guard in front of its handler. A guard that answers
  leaves the store unchanged.
- The front end:
  - `api_response.dfy`: the API reply helpers;
  - `app_routes.dfy`: the route guard and route table;
  - `request_access_page.dfy`: the request-access page, as a class over its
    React state;
  - `reports_page.dfy`: the report page's status-count loop;
  - `signup_page.dfy`: the sign-up form rules;
  - `create_project_page.dfy`: the project form rules.
- `text.dfy` gives JavaScript's string semantics: UTF-16 `length`, ASCII
  case mapping, `\s` and `\d`.
- `mongo.dfy` gives the identifiers and `$addToSet`.

These are parameters rather than code:

- bcrypt is a parameter `hash` (compare is `hash(password) == stored`);
- the clock is a parameter `now`;
- a record's JSON text is a parameter `serialize`;
- how the report's query or cursor fails is a parameter `fault`;
- an API call's outcome is a parameter of type `Call`.

## Model

| member | source | states |
|---|---|---|
| UserModel.ParseRole | backend/models/user.model.js:7 | only "Admin" and "Client" are roles, and each parses back to the role it names |
| UserModel.RoleNameRoundTrip | backend/models/user.model.js:7 | every role survives the trip through its stored name |
| AccessRequestModel.ParseStatus | backend/models/accessRequest.model.js:15-19 | exactly PENDING, APPROVED and DENIED are statuses |
| AccessRequestModel.StatusNameRoundTrip | backend/models/accessRequest.model.js:15-19 | every status survives the trip through its stored name |
| AccessRequestModel.NewRequest | backend/models/accessRequest.model.js:5-22 | a new request is PENDING, has no decider, and carries both references and the creation time |
| Database.PopulateUser | backend/controllers/request.controller.js:40 | the populated client is present exactly when the user exists, and is then its id and username |
| Database.PopulateProject | backend/controllers/request.controller.js:39 | the populated project is present exactly when the project exists, and is then the stored document |
| Database.Db.NewId | backend/controllers/request.controller.js:20-23 | a created document gets an identifier no document holds, and the store invariant is kept |
| Mongo.Occurrences | backend/models/project.model.js:12 | the count of an id in a list is at most the list's length, and zero exactly when the id is absent |
| Mongo.AddToSet | backend/controllers/request.controller.js:75-77 | `$addToSet` keeps the old list as a prefix, and the id is in the result exactly once added |
| Mongo.NoDupOccurrences | backend/controllers/request.controller.js:75-77 | in a duplicate-free list every id occurs once or not at all |
| Mongo.AddToSetKeepsNoDup | backend/controllers/request.controller.js:75-77 | `$addToSet` keeps a list duplicate-free |
| Mongo.AddToSetOccursOnce | backend/controllers/request.controller.js:75-77 | after `$addToSet` the id occurs exactly once, and adding it again changes nothing |
| Text.JsLength | backend/controllers/project.controller.js:51 | JavaScript's `length` is between the number of characters and twice that |
| Text.JsLengthOfBmp | backend/controllers/project.controller.js:51 | for characters of the Basic Multilingual Plane, `length` is the number of characters |
| Text.LowerChar | frontend/src/pages/RequestAccessPage.jsx:79 | lower-casing moves exactly the ASCII capitals down by 32 |
| Text.UpperChar | frontend/src/pages/ReportsPage.jsx:42 | upper-casing moves exactly the ASCII small letters up by 32 |
| Text.ToLower | frontend/src/pages/RequestAccessPage.jsx:79 | `toLowerCase` keeps the length and maps every character; no capital is left, and a string without capitals is unchanged |
| Text.ToUpper | frontend/src/pages/ReportsPage.jsx:42 | `toUpperCase` keeps the length and maps every character; no small letter is left, and a string without one is unchanged |
| Session.UserOf | backend/middleware/auth.middleware.js:3 | a session user is present exactly when there is a session and it holds a user |
| AuthMiddleware.RequireAuth | backend/middleware/auth.middleware.js:2-7 | answers 401 exactly when there is no session user, else hands on |
| AuthMiddleware.RequireAdmin | backend/middleware/auth.middleware.js:9-14 | hands on exactly an Admin session user; everyone else, no session included, gets 403 |
| AuthMiddleware.AdminGuardIsStricter | backend/middleware/auth.middleware.js:2-14 | whatever requireAdmin admits, requireAuth admits |
| AuthMiddleware.AuthGuardAdmitsEveryRole | backend/middleware/auth.middleware.js:2-7 | requireAuth admits any role once a user is signed in |
| AuthController.CoerceRole | backend/controllers/auth.controller.js:20 | the role is Admin exactly when the body asks for "Admin"; no role gives the default Client |
| AuthController.NewUser | backend/controllers/auth.controller.js:15-21 | the stored user has the name, the hash of the password in place of the password, and the coerced role |
| AuthController.CreateUser | backend/controllers/auth.controller.js:4-33 | a taken name gives 400 with users unchanged; an empty required field gives 500; otherwise exactly one new user under a fresh id, with 201 |
| AuthController.CheckUser | backend/controllers/auth.controller.js:35-66 | succeeds exactly when some stored user matches name and hashed password; an unknown name and a wrong password give the same 400 and leave the session; success writes that user's id, name and role into the session |
| AuthController.GetCurrentUser | backend/controllers/auth.controller.js:68-87 | 401 without a session user; otherwise the session user unchanged; 500 with no session object |
| AuthController.LogoutUser | backend/controllers/auth.controller.js:89-105 | always "Logged out" with 200, and no user remains in the session |
| AuthController.SignupThenLogin | backend/controllers/auth.controller.js:4-66 | a sign-up under a free name followed by a login with the same password succeeds and leaves that user, with the coerced role, in the session |
| ProjectController.FetchProjects | backend/controllers/project.controller.js:3-25 | an Admin gets every project; anyone else gets exactly the projects whose access list holds them, unchanged |
| ProjectController.GetAllProjectsForRequestAccess | backend/controllers/project.controller.js:27-45 | every project, cut down to name, location and access list |
| ProjectController.NewProject | backend/controllers/project.controller.js:57-65 | a created project has the supplied fields, the session user as creator and an empty access list |
| ProjectController.CreateProject | backend/controllers/project.controller.js:47-77 | a phone longer than 10 gives 400 and no project; an empty required field gives 500; otherwise exactly one new project under a fresh id |
| ProjectController.ApplyUpdate | backend/controllers/project.controller.js:99-113 | each field supplied non-empty replaces the stored one; every other field, the creator and access list included, is kept |
| ProjectController.ApplyUpdateKeepsSchema | backend/controllers/project.controller.js:100-113 | an update that passes the phone check keeps a valid project valid |
| ProjectController.ApplyUpdateIdempotent | backend/controllers/project.controller.js:100-118 | applying the same update twice is the same as applying it once |
| ProjectController.UpdateProject | backend/controllers/project.controller.js:96-131 | a supplied phone longer than 10 gives 400 and no change, even for an unknown id; an unknown id gives 404; otherwise only that project changes, to the updated one |
| ProjectController.DeleteProject | backend/controllers/project.controller.js:79-94 | an unknown id gives 404 and no change; otherwise exactly that project is removed and the requests naming it stay |
| RequestController.CreateRequest | backend/controllers/request.controller.js:4-34 | a non-Client gets 403 and an unknown project 404, with requests unchanged; otherwise exactly one new PENDING request by the caller for the project, with no decider |
| RequestController.ParseDecision | backend/controllers/request.controller.js:61 | a decision is present exactly for "APPROVED" and "DENIED" |
| RequestController.Decide | backend/controllers/request.controller.js:70-72 | the decided request has the new status and the deciding admin, whatever it held before |
| RequestController.DecideKeepsConsistent | backend/controllers/request.controller.js:70-72 | a decided request names its decider |
| RequestController.RedecisionOverwrites | backend/controllers/request.controller.js:70-72 | a second decision replaces the first entirely |
| RequestController.GrantAccess | backend/controllers/request.controller.js:74-78 | approval adds the client to that project's list with set semantics and changes no other project |
| RequestController.GrantTwiceOccursOnce | backend/controllers/request.controller.js:74-78 | approving twice leaves the client in the list exactly once |
| RequestController.GrantAccessKeepsProjectsOk | backend/controllers/request.controller.js:74-78 | granting access keeps the project collection's invariant |
| RequestController.ProcessRequestDecision | backend/controllers/request.controller.js:56-88 | an invalid status gives 400 before any lookup, and an unknown id 404, both changing nothing; otherwise the request gets the decision and decider; only APPROVED touches access lists, so DENIED never revokes |
| RequestController.FetchPendingRequests | backend/controllers/request.controller.js:36-54 | exactly the PENDING requests, each joined with its project and its client's name |
| RequestController.FetchUserRequests | backend/controllers/request.controller.js:90-104 | exactly the requests whose client is the caller, each with its project's name |
| RequestController.RequestThenApprove | backend/controllers/request.controller.js:4-88 | a Client's request for an existing project, once approved by an Admin, is APPROVED with that admin as decider, and the client is on the project's access list, so the project is in the client's own listing |
| ReportController.PopulateSummary | backend/controllers/report.controller.js:11 | the project part of a record is present exactly when the project exists, and is its id, name and e-mail |
| ReportController.JoinRow | backend/controllers/report.controller.js:10-12 | a record carries the request's fields, its project summary and its client's name |
| ReportController.IdsBelow | backend/controllers/report.controller.js:10 | the request ids below a bound, each once, in increasing order |
| ReportController.InsertNewestFirst | backend/controllers/report.controller.js:13 | inserting into a newest-first list keeps it newest first and adds exactly that record |
| ReportController.SortNewestFirst | backend/controllers/report.controller.js:13 | the result is newest first and holds exactly the input records |
| ReportController.InsertKeepsDistinct | backend/controllers/report.controller.js:13 | inserting a record with a new id keeps ids distinct |
| ReportController.SortKeepsDistinct | backend/controllers/report.controller.js:13 | sorting keeps ids distinct |
| ReportController.Snapshot | backend/controllers/report.controller.js:10-14 | the cursor's records are newest first and each is the join of a stored request |
| ReportController.SnapshotIsComplete | backend/controllers/report.controller.js:10-14 | every stored request appears in the report exactly once |
| ReportController.Interleave | backend/controllers/report.controller.js:18-24 | n records take max(n-1, 0) "," chunks, one between each pair of neighbours |
| ReportController.ConcatAppend | backend/controllers/report.controller.js:16-28 | the body of two runs of chunks is the two bodies joined |
| ReportController.ConcatInterleave | backend/controllers/report.controller.js:18-24 | the records with their separators make the records joined by "," |
| ReportController.InterleaveSnoc | backend/controllers/report.controller.js:21-24 | one more record adds a "," (unless it is the first) and then its text |
| ReportController.Rendered | backend/controllers/report.controller.js:24 | each record's text is its serialisation, in order |
| ReportController.Written | backend/controllers/report.controller.js:20-37 | a cursor failure stops output after the records delivered so far; otherwise all are written |
| ReportController.BodyText | backend/controllers/report.controller.js:16-37 | the chunks make "[" + records joined by "," + "]", or the same without "]" when cut off |
| ReportController.WriteRows | backend/controllers/report.controller.js:16-25 | the loop with its `isFirst` flag writes "[" and the records with a "," before every record but the first |
| ReportController.FetchReports | backend/controllers/report.controller.js:3-43 | a failure before the stream opens is a 500 JSON error; otherwise the body is "[" + records joined by "," + "]", or ends unclosed after the delivered records when the cursor fails |
| ReportController.EmptyReportIsBrackets | backend/controllers/report.controller.js:16-28 | no records give exactly "[]" |
| Routes.Refused | backend/middleware/auth.middleware.js:3-4 | a guard's answer is sent as the reply's status and message |
| Routes.PostRequest | backend/routes/request.routes.js:8 | without a session 401 and no change; an Admin gets 403; only a Client's call adds a request |
| Routes.PostDecision | backend/routes/request.routes.js:14 | a non-Admin gets 403 and no change; an access list changes only on an Admin's approval |
| Routes.PostProject | backend/routes/project.routes.js:20 | a non-Admin gets 403 and no change; a created project names its Admin creator |
| Routes.PutProject | backend/routes/project.routes.js:23 | a non-Admin gets 403 and no change; only an Admin changes a project |
| Routes.DeleteProjectRoute | backend/routes/project.routes.js:26 | a non-Admin gets 403 and no change; only an Admin removes a project |
| Routes.PostUser | backend/routes/user.routes.js:11 | a non-Admin gets 403 and no change; only an Admin adds a user here |
| Routes.PublicSignup | backend/routes/auth.routes.js:8 | with no session at all, a sign-up asking for "Admin" under a free name creates an Admin |
| Routes.GetReports | backend/routes/report.routes.js:7 | a non-Admin gets a 403 JSON error; only an Admin receives the stream |
| ApiResponse.DataOf | frontend/src/utils/handleApiResponse.js:10 | the response's data, or `{}` when the response or its data is missing |
| ApiResponse.MessageOf | frontend/src/utils/handleApiResponse.js:12-13 | data.message when non-empty, else "Success" on success, else "Something went wrong"; never empty |
| ApiResponse.HandleApiResponse | frontend/src/utils/handleApiResponse.js:7-24 | returns the data; an error toast exactly when success is false; a success toast exactly when success and showSuccess hold, with successMessage in place of the message when given; showSuccess defaults to true |
| ApiResponse.HandleApiError | frontend/src/utils/handleApiResponse.js:29-37 | an error toast with the server's message, else the error's own message, else the fallback |
| AppRoutes.PrivateRoute | frontend/src/App.jsx:12-27 | loading wins over everything; no user goes to /login; a non-Admin on an admin-only route goes to /projects; otherwise the page shows |
| AppRoutes.TrimSlashes | frontend/src/App.jsx:31-75 | the path's longest prefix not ending in '/'; everything it drops is a slash |
| AppRoutes.TrimSlashesIgnoresSlashes | frontend/src/App.jsx:31-75 | appending any number of slashes to a path leaves the trimmed path unchanged |
| AppRoutes.Matches | frontend/src/App.jsx:31-75 | a path selects a route only when the trimmed path is as long as the route, and always when it equals the route |
| AppRoutes.MatchesIgnoresTrailingSlashes | frontend/src/App.jsx:31-75 | trailing slashes never change whether a path selects a route |
| AppRoutes.Lookup | frontend/src/App.jsx:31-75 | only /login and /signup are open; a guarded entry is admin-only exactly for the admin pages; the catch-all is reached exactly when no route matches |
| AppRoutes.Resolve | frontend/src/App.jsx:31-75 | an open page is shown as is; the loading screen only on a guarded route; a redirect goes to /login, or to /projects from an admin-only route; a shown page is the route's own |
| AppRoutes.ShownPagesRespectGuards | frontend/src/App.jsx:31-75 | on any path, an admin-only page shows only to a loaded Admin, and the other guarded pages only to a loaded user |
| AppRoutes.GuardTable | frontend/src/App.jsx:34-73 | /createProject, /reports and /users are admin-only; /projects and /request-access only need a user |
| AppRoutes.UnmatchedGoesToLogin | frontend/src/App.jsx:74 | a path no route names redirects to /login |
| RequestAccessPage.FromServer | backend/controllers/request.controller.js:92-94 | an entry of the page's request list has a project exactly when the project still exists, that project's identifier, and the stored status |
| RequestAccessPage.ServerStatusPending | frontend/src/pages/RequestAccessPage.jsx:79 | of the stored statuses, only PENDING reads as "pending" once lower-cased |
| RequestAccessPage.HasRequestedAsWritten | frontend/src/pages/RequestAccessPage.jsx:77-81 | as written, the check throws exactly when an entry without a project comes before any match |
| RequestAccessPage.HasRequested | frontend/src/pages/RequestAccessPage.jsx:77-81 | holds exactly when some entry is for the project with a status that lower-cases to "pending" |
| RequestAccessPage.AsWrittenAgreesWhenDefined | frontend/src/pages/RequestAccessPage.jsx:77-81 | where the code as written returns, it agrees with the corrected check, and it always returns when no project is missing |
| RequestAccessPage.DeletedProjectThrows | frontend/src/pages/RequestAccessPage.jsx:77-81 | a request whose project was deleted makes the check as written throw |
| RequestAccessPage.HasRequestedFromServer | frontend/src/pages/RequestAccessPage.jsx:43-51 | on the server's list, the check holds exactly when a PENDING request names the project |
| RequestAccessPage.AppendedRequestIsPending | frontend/src/pages/RequestAccessPage.jsx:61-66 | after the local entry is appended, the project counts as requested |
| RequestAccessPage.BadgeFor | frontend/src/pages/RequestAccessPage.jsx:166-185 | Access Granted exactly when the caller has access; Request Pending when not but a request is pending; the button otherwise |
| RequestAccessPage.BadgeAsWritten | frontend/src/pages/RequestAccessPage.jsx:134-185 | a card as written throws exactly when `hasRequested` as written does, even for a granted project, and otherwise shows the corrected badge |
| RequestAccessPage.CardsAsWritten | frontend/src/pages/RequestAccessPage.jsx:133-189 | the render as written throws exactly when some project's check throws, and otherwise yields the corrected cards |
| RequestAccessPage.RenderThrowsOnDeletedProject | frontend/src/pages/RequestAccessPage.jsx:133-135 | with one request for a deleted project, the render as written throws for any other project, where the corrected render shows the request button |
| RequestAccessPage.Fetched | frontend/src/pages/RequestAccessPage.jsx:19-51 | a successful reply replaces the list with the one it carries (or an empty one); anything else keeps it and raises the error toast |
| RequestAccessPage.RequestAccessState.constructor | frontend/src/pages/RequestAccessPage.jsx:13-16 | the page starts with empty lists, loading |
| RequestAccessPage.RequestAccessState.Load | frontend/src/pages/RequestAccessPage.jsx:83-102 | no user does nothing; a non-Client goes to /projects with nothing loaded; a Client gets the three lists and the page stops loading |
| RequestAccessPage.RequestAccessState.HandleRequestAccess | frontend/src/pages/RequestAccessPage.jsx:53-71 | a successful reply appends a pending entry for the project, after which its card is not a button; otherwise the list is kept |
| RequestAccessPage.RequestAccessState.Render | frontend/src/pages/RequestAccessPage.jsx:104-198 | the loading text, or one card per project with its corrected badge and the note when there is none; wherever the page as written renders, it renders these cards |
| ReportsPage.CountLabel | frontend/src/pages/ReportsPage.jsx:42-46 | a count of records never exceeds the number of records |
| ReportsPage.ComputeStats | frontend/src/pages/ReportsPage.jsx:40-50 | total is the number of records; each other counter counts the records whose upper-cased status, with a missing one read as "", names it |
| ReportsPage.CountersAddUp | frontend/src/pages/ReportsPage.jsx:40-50 | pending + approved + denied is at most total, and equal exactly when every status is one of the three |
| ReportsPage.StoredStatusIsKnown | frontend/src/pages/ReportsPage.jsx:42 | a stored status reads as itself once upper-cased and has a counter |
| ReportsPage.StatusesOf | frontend/src/pages/ReportsPage.jsx:42 | the page reads each record's stored status name |
| ReportsPage.ServerReportAddsUp | frontend/src/pages/ReportsPage.jsx:40-50 | for the server's records the three counters add up to the total |
| ReportsPage.Pill | frontend/src/pages/ReportsPage.jsx:144-160 | APPROVED is green, DENIED red, and any other status yellow |
| ReportsPage.ReportsState.constructor | frontend/src/pages/ReportsPage.jsx:8-15 | the page starts with no records, zero counters, loading |
| ReportsPage.ReportsState.Load | frontend/src/pages/ReportsPage.jsx:17-65 | a non-Admin goes to /projects with nothing fetched; a parsed array replaces records and counters; a failure alerts and keeps both; loading ends either way |
| ReportsPage.LoadServerReport | frontend/src/pages/ReportsPage.jsx:25-60 | a complete report gives counters that add up to the number of records; a cut-off one alerts and keeps the counters |
| SignupPage.PatternIsPolicy | frontend/src/pages/SignupPage.jsx:48-51 | the pattern accepts exactly: eight or more characters from the allowed set, with a lower-case letter, an upper-case letter, a digit and a special |
| SignupPage.UsernameError | frontend/src/pages/SignupPage.jsx:68-71 | a username passes exactly when it is at least 3 long; an empty one is reported as required |
| SignupPage.PasswordError | frontend/src/pages/SignupPage.jsx:85-92 | a password passes exactly when the policy allows it; empty is reported as required and under 8 as too short |
| SignupPage.StrengthClass | frontend/src/pages/SignupPage.jsx:40-46 | empty gives no class; under 8 red; 8-9 red; 10-11 yellow; 12 or more green |
| SignupPage.StrengthLabel | frontend/src/pages/SignupPage.jsx:117 | Weak under 8, Strong from 12, Good in between |
| SignupPage.GoodShownInRed | frontend/src/pages/SignupPage.jsx:40-46 | 8 or 9 characters read "Good" in the weak colour |
| SignupPage.HintsFor | frontend/src/pages/SignupPage.jsx:98-115 | the four hints are length 8, an upper-case letter, a digit and a special |
| SignupPage.HintsMissLowercase | frontend/src/pages/SignupPage.jsx:98-115 | all four hints can be green on a password the form rejects, since none asks for a lower-case letter |
| SignupPage.Payload | frontend/src/pages/SignupPage.jsx:29 | the payload keeps name and password and drops the role |
| SignupPage.PagePayloadMakesClient | frontend/src/pages/SignupPage.jsx:29 | whatever the hidden role field holds, the account created from the page is a Client |
| SignupPage.OnUser | frontend/src/pages/SignupPage.jsx:22-24 | a signed-in visitor is sent to /projects |
| SignupPage.AfterSubmit | frontend/src/pages/SignupPage.jsx:26-38 | any reply raises its toast and goes to /login; a thrown error raises the error toast with "Signup failed" as fallback and stays |
| SignupPage.SignupFromPage | frontend/src/pages/SignupPage.jsx:26-38 | a valid form is accepted exactly when the name is free and the hash non-empty, and then stores a Client under that name |
| CreateProjectPage.FormPhonePassesServer | frontend/src/pages/CreateProjectPage.jsx:118-124 | a phone of exactly ten digits passes the server's length check |
| CreateProjectPage.ServerPhoneIsLooser | frontend/src/pages/CreateProjectPage.jsx:118-124 | the server accepts phones the form refuses |
| CreateProjectPage.PatternHasShape | frontend/src/pages/CreateProjectPage.jsx:140-146 | every string the e-mail pattern accepts has no white space, a single '@' that is not first, and a '.' after it with a character on each side |
| CreateProjectPage.ShapeMatchesPattern | frontend/src/pages/CreateProjectPage.jsx:140-146 | every string of that shape is accepted by the e-mail pattern |
| CreateProjectPage.EmailPatternIsShape | frontend/src/pages/CreateProjectPage.jsx:140-146 | the e-mail pattern accepts exactly strings with no white space, one '@' not at the start, and a '.' after it with a character on each side |
| CreateProjectPage.FieldError | frontend/src/pages/CreateProjectPage.jsx:90-181 | a field passes exactly when present and matching its pattern; an empty one is reported as required |
| CreateProjectPage.FormErrors | frontend/src/pages/CreateProjectPage.jsx:90-181 | six results in form order: each empty field gets its "… is required" message, a non-empty phone that is not ten digits "Must be 10 digits", a non-empty e-mail without the address shape "Invalid email", and a field passing its rules none |
| CreateProjectPage.FormValidMeans | frontend/src/pages/CreateProjectPage.jsx:90-181 | the form is valid exactly when all six fields are present, the phone is ten digits and the e-mail has the shape above |
| CreateProjectPage.ValidFormPassesServer | frontend/src/pages/CreateProjectPage.jsx:47-57 | a submitted form always passes the server's phone and required-field checks |
| CreateProjectPage.ValidFormReplacesEveryField | frontend/src/pages/CreateProjectPage.jsx:51-53 | an edit from the form replaces every stored field |
| CreateProjectPage.BeforeT | frontend/src/pages/CreateProjectPage.jsx:28-33 | `split("T")[0]` is the prefix before the first 'T', the whole string when there is none |
| CreateProjectPage.BeforeTOfTimestamp | frontend/src/pages/CreateProjectPage.jsx:28-33 | a stored timestamp prefills as its date, and a bare date as itself |
| CreateProjectPage.Prefill | frontend/src/pages/CreateProjectPage.jsx:21-45 | blanks for a new project; for an edit the project's values, each date the stored text up to its first 'T' (`split("T")[0]`) |
| CreateProjectPage.PrefillOfStoredProject | frontend/src/pages/CreateProjectPage.jsx:21-34 | editing a project stored with timestamps fills the dates with the calendar days, and resubmitting the form unchanged writes back the days without their times |
| CreateProjectPage.TargetOf | frontend/src/pages/CreateProjectPage.jsx:10-11 | edit mode holds exactly when a project is passed, and it is then a PUT to that project's id |
| CreateProjectPage.AfterSubmit | frontend/src/pages/CreateProjectPage.jsx:47-75 | a reply raises its toast with the mode's success message and goes to /projects only on success; a thrown error uses the mode's failure message |
| CreateProjectPage.CreateFromPage | frontend/src/pages/CreateProjectPage.jsx:47-57 | a valid new project from the form is always stored, with nobody granted |

## Left out

- MongoDB itself is replaced by maps:
  - query building, `populate` (a lookup in the maps) and `lean`;
  - ObjectId casting: an identifier is a natural number, so a malformed id, which the source answers with a 500 cast error, is not modelled;
  - the 500 replies of the `catch` blocks for database errors, except the report's failure modes.
- AuthController.CreateUser: a failed `required` validator gives the one constant message `UserValidationFailed`; mongoose composes a message per field.
- ProjectController.CreateProject: a failed `required` validator gives the one constant message `ProjectValidationFailed`; mongoose composes a message per field.
- Date casting of `startDate`/`endDate` is not modelled: dates are strings.
- A missing body field is the empty string.
- ProjectController.CreateProject: does not model the TypeError that `phone.length` raises on a body with no `phone`. The empty phone passes the length check and fails the required check instead, which is also a 500 but with another message.
- bcrypt salting and cost are not modelled; `hash` is a fixed function.
- User timestamps are not modelled; project and request timestamps are, through `now`.
- ReportController.Snapshot: breaks ties between requests of equal `createdAt` by identifier. MongoDB leaves that order unspecified.
- JSON serialisation is not modelled: a record's text is the parameter `serialize`.
- The browser's JSON parsing in the report page is not modelled either: the page is given the parsed statuses or the parser's error.
- The unreachable 500 branch of the cursor error handler is left out: headers are always sent by then.
- The express-session store, cookies, `clearCookie` and the 24-hour lifetime are left out.
- AuthController.LogoutUser: does not model a failing `session.destroy` (500 "Could not logout").
- Concurrency is left out: each handler is atomic. Approval's two writes (request, then project) are one step.
- RequestAccessPage.RequestAccessState.Load: runs the three fetches one after another. The page runs them concurrently, but each sets its own state.
- `fetchAllUsers` and the `DELETE /users/:id` route are left out. The route names a `deleteUser` that `backend/controllers/user.controller.js` does not export, so no user deletion and no cascade exist.
- Server wiring, CORS and helmet, the log middleware and the admin seeder are left out.
- React rendering beyond the decisions above is left out: hooks, timers, toasts as effects, `toLocaleString`. Toasts, alerts and navigation are returned as values.
- The pages with no logic beyond display are left out: projects, login, users and the auth context.
- AppRoutes.Matches: folds ASCII letters only, where the router ignores case by full Unicode rules.
- Case mapping (`toLowerCase`, `toUpperCase`) is ASCII only; the statuses it is applied to are ASCII.
- react-hook-form's `required` is modelled as "not the empty string".
- CreateProjectPage.FormValid: covers react-hook-form's rules only. The browser's own checks on the `type="email"` and `type="date"` inputs of a form without `noValidate` can also block a submission (e.g. `a@b_c.d` passes the pattern but not the browser) and are not modelled.
- RequestAccessPage.BadgeFor: uses the corrected `hasRequested`. The page as written throws instead on a list holding a deleted project's request ahead of a match; that outcome is modelled by RequestAccessPage.BadgeAsWritten and RequestAccessPage.CardsAsWritten.
- RequestAccessPage.RequestAccessState.Render: renders with the corrected `hasRequested`, so it shows a grid where the page as written throws while rendering. Its contract states that the two agree whenever the page as written renders at all (RequestAccessPage.CardsAsWritten).

## Findings

| source | as written | input that shows it | evidently intended | confidence | as-written member | corrected member |
|---|---|---|---|---|---|---|
| frontend/src/pages/RequestAccessPage.jsx:77-81 | `hasRequested` reads `r.project._id` for every entry until one matches. The server returns `project: null` for a request whose project was deleted (`populate` at backend/controllers/request.controller.js:93), so the read throws during render. | A Client requested project A, an Admin then deleted A, and project B still exists. Opening the request-access page calls `hasRequested(B)`, which reaches the entry for A first. | Skip entries without a project (`r.project?._id`), so a deleted project's request counts for nothing. | medium; not executed | RequestAccessPage.HasRequestedAsWritten, RequestAccessPage.DeletedProjectThrows, RequestAccessPage.CardsAsWritten, RequestAccessPage.RenderThrowsOnDeletedProject | RequestAccessPage.HasRequested |
