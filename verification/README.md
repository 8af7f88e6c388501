# Campus services portal: a Dafny model of its decision logic

The portal lets students submit service requests to campus departments. Staff
and admins triage those requests, students rate completed work, and admins
maintain the department and service catalogue. The backend is an Express
application. Every handler is a short, ordered chain of checks (required
fields, closed-set membership, existence, ownership, state), and each check
ends in its own HTTP status, followed by at most one write to the PostgreSQL
store. In front of the handlers sit the token and role middlewares and four
route tables. On the client side, a route guard decides whether a page shows
a spinner, redirects, or renders.

This project models that logic in Dafny and proves what each step promises:

- `common.dfy` (Common): roles, statuses and priorities, the token claims,
  JavaScript truthiness of body fields (`Truthy`, `OrElse`), and the reply
  shape.
- `auth_gate.dfy` (AuthGate): `authenticateToken` and `authorize` as pure
  functions from the request to Allow or Deny. jsonwebtoken's `verify` is an
  oracle parameter.
- `error_handler.dfy` (ErrorHandler): the total map from a thrown error to a
  status and an `error` text, and the 404 of `notFound`.
- `store.dfy` (Store): the tables as `map` fields of a `Database` class that
  the handlers reassign. It also holds the unique email index and the id
  sequences.
- `sql.dfy` (Sql): the parameterised SELECTs that three handlers build step by
  step. A statement is abstracted to its conditions with placeholder numbers,
  its ORDER BY and its LIMIT/OFFSET slots. `Compile` is the reference
  statement for a filter list, and `PushFilter` is one
  `paramCount++ / text += / params.push` step.
- `auth_controller.dfy`, `request_controller.dfy`, `feedback_controller.dfy`
  and `service_controller.dfy`: one module per controller. Each check chain is
  a function returning a `Verdict`, and each handler is a method over the
  `Database` whose contract gives the reply and the new state for every path.
- `routes.dfy` (Routes): the four routers as constant tables. A router has its
  `router.use` guards and its routes in registration order, each route with
  its own guard list. `Handle` runs the router guards, then the first matching
  route, then that route's guards. For every router, a reference function
  (`RequestEndpoint`, …) says which handler each method and path reaches, and
  a lemma proves that first-match dispatch agrees with it.
- `protected_route.dfy` (ProtectedRoute): the client-side guard.
- `scenario.dfy` (Scenario): a new student registers, uses the issued token on
  an admin-only route, and logs in twice, all against a fresh store.

Foreign code is passed in as function parameters:

- bcrypt's `hash`/`compare` is the `Hasher` parameter.
- jsonwebtoken's `sign` (with the secret) is the `Signer` parameter.
- jsonwebtoken's `verify` (with the secret and the clock) is the `Verifier`
  parameter.
- The clock of an insert is a `now` parameter.
- bcrypt's own randomness is a `salt` parameter.

`Paired` states what the JWT pair is assumed to do (the signer and the
verifier share the secret), and only the lemmas and methods that need it
require it. Of bcrypt no general law is assumed: the end-to-end scenario
requires exactly the two answers of `compare` it relies on.

The store keeps the foreign keys the handlers rely on as part of its
consistency invariant (`Database.Valid`): a request names an existing user
and service type, and a service type an existing department. Feedback is not
tied to its request, so the inner joins of the feedback reads are modelled
explicitly.

A field the client left out or sent as `null` is `None`. A present `''` or
`0` is still falsy wherever the source tests truthiness. `COALESCE` in
`updateDepartment` skips only `None`. Query-string values are strings, so
`'0'` is truthy: a numeric query filter therefore counts whenever it is
present.

## Model

| member | source | states |
|---|---|---|
| Common.ParseRole | backend/controllers/authController.js:29-31 | a role name is accepted exactly when it is one of student, admin, staff, and the role returned carries that name |
| Common.ParseRoleName | backend/controllers/authController.js:29-31 | every role's name is accepted and parses back to the same role |
| Common.ParsePriority | backend/controllers/requestController.js:17-18 | a priority is accepted exactly when it is low, medium or high, and the priority returned carries that name |
| Common.ParseStatus | backend/controllers/requestController.js:223-224 | a status is accepted exactly when it is one of the five names, and the status returned carries that name |
| Common.ParseStatusName | backend/controllers/requestController.js:223-224 | every status's name is accepted and parses back to the same status |
| AuthGate.SecondField | backend/middleware/auth.js:6 | element 1 of `split(' ')` is undefined exactly when the header has no space; otherwise it is the text from just after the first space up to the next space or the end, so it contains no space |
| AuthGate.ExtractToken | backend/middleware/auth.js:5-8 | a missing header or one without a space yields no token; otherwise the token is element 1 of `split(' ')` exactly when that field is non-empty, and none when it is empty |
| AuthGate.SecondFieldOf | backend/middleware/auth.js:6 | every header with a space decomposes as `<first> <field><rest>`, and element 1 of `split(' ')` is then exactly `field` |
| AuthGate.TokenExtraction | backend/middleware/auth.js:6 | every header `<scheme> <token><rest>` (space-free scheme and token, rest empty or starting with a space) yields exactly `token`, or no token when `token` is empty: the scheme is never checked and further words are ignored |
| AuthGate.Authenticate | backend/middleware/auth.js:4-19 | no token gives 401 "Access token required"; a token the verifier rejects gives 403 "Invalid or expired token"; otherwise the request goes on with `req.user` exactly the decoded payload |
| AuthGate.Authorize | backend/middleware/auth.js:22-38 | no `req.user` gives 401 "Authentication required" before any role check; otherwise the request goes on exactly when the role is listed, and a refusal is the 403 naming the listed roles and the actual one |
| AuthGate.RoleGuards | backend/middleware/auth.js:41-47 | isAdminOrStaff admits exactly admin and staff, isAdmin only admin, isStudent only student; whatever isAdmin admits isAdminOrStaff admits; isAdminOrStaff and isStudent admit complementary roles |
| ErrorHandler.CodeReply | backend/middleware/errorHandler.js:6-33 | the code switch: 23505 gives 409 "Duplicate entry"; 23503 gives 400 "Referenced record does not exist", 23502 400 "Required field missing", 23514 400 "Invalid data"; any other code 500 "Database error"; 409 and 400 arise exactly for those codes |
| ErrorHandler.HandleError | backend/middleware/errorHandler.js:2-57 | a truthy code decides alone; then JsonWebTokenError and TokenExpiredError give 401, ValidationError 400; otherwise `err.status` or 500 with `err.message` or "Internal server error" |
| ErrorHandler.CodeDecidesAlone | backend/middleware/errorHandler.js:6-34 | two errors with the same truthy code get the same reply whatever their names, statuses and messages, and that status is 400, 409 or 500 |
| ErrorHandler.DbErrorsNeverUnauthorized | backend/middleware/errorHandler.js:6-33 | a database error is never reported as a 401 |
| ErrorHandler.NotFound | backend/middleware/errorHandler.js:60-65 | an unmatched route gets 404 "Route not found" and echoes the requested path |
| Store.Database.constructor | backend/controllers/authController.js:40-45 | a fresh store is consistent, with empty tables and every sequence at 1 |
| Store.Database.UserByEmail | backend/controllers/authController.js:76-79 | the lookup finds a user id exactly when some user has that email, and that user has it |
| Store.Database.InsertUser | backend/controllers/authController.js:40-45 | a taken email is refused with SQLSTATE 23505 and nothing changes; otherwise exactly one row is added under the next id, and the email index follows |
| Sql.PushFilter | backend/controllers/requestController.js:62-66 | one builder step turns the compiled form of the filters so far into the compiled form with one more filter |
| Sql.CompileWellNumbered | backend/controllers/requestController.js:59-89 | a compiled statement's placeholders are $1, $2, … in order, with exactly one parameter each, LIMIT and OFFSET included |
| Sql.CompileMeaning | backend/controllers/requestController.js:59-89 | with its params bound, a compiled statement keeps exactly the rows that pass every filter, and its LIMIT and OFFSET slots hold the page values |
| AuthController.IssuedTokenAuthenticates | backend/controllers/authController.js:6-16 | a token from generateToken, sent back as `Bearer <token>`, passes authenticateToken with `req.user` exactly the user's id, email and role |
| AuthController.ValidateRegistration | backend/controllers/authController.js:24-33 | missing name, email or password gives 400; a falsy role becomes student; any other role outside the three gives 400 "Invalid role"; a pass carries the body's fields |
| AuthController.Register | backend/controllers/authController.js:19-59 | every refusal leaves the store unchanged (400 from validation, 409 for a taken email); success inserts exactly one user with the bcrypt hash and answers 201 with the public fields only, plus that user's token |
| AuthController.Login | backend/controllers/authController.js:66-105 | writes nothing; missing fields give 400; succeeds exactly when the email is registered and the password matches the stored hash; an unknown email and a wrong password give the same 401 |
| AuthController.GetProfile | backend/controllers/authController.js:112-123 | the stored row for the token's user id, without the hash, or 404 "User not found" |
| RequestController.ValidateNewRequest | backend/controllers/requestController.js:10-20 | a missing service id, title, description or priority gives the 400; a priority outside low, medium, high gives "Invalid priority level"; a pass carries the body's values |
| RequestController.CreateRequest | backend/controllers/requestController.js:4-33 | refusals change nothing; a negative service id, or a service or caller with no row, gives the foreign-key 400 "Referenced record does not exist"; success adds exactly one row under the next id, owned by the caller, pending, unassigned and without a rejection reason |
| RequestController.BuildRequestListing | backend/controllers/requestController.js:59-112 | the listing and the count built step by step equal the compiled statements of the same status, priority, serviceId filters: the listing with priority order and LIMIT/OFFSET (defaults 50 and 0), the count with neither |
| RequestController.ListingMeaning | backend/controllers/requestController.js:59-78 | either statement keeps a request exactly when it has the requested status, priority and service |
| RequestController.CountAgreesWithListing | backend/controllers/requestController.js:94-114 | the reported total counts the same rows the listing pages through |
| RequestController.ListingOrderMeaning | backend/controllers/requestController.js:80-86 | in listing order high comes before the rest, low after the rest, and equal priorities are newest first |
| RequestController.OwnRequestsAreViewable | backend/controllers/requestController.js:130-147 | a student's own requests are exactly the ones getRequestById lets them open |
| RequestController.GetRequestById | backend/controllers/requestController.js:165-190 | in a consistent store (whose foreign keys keep the joins from dropping a row): an unknown id gives 404 before any role check; a student who does not own the request gets 403 "Access denied"; staff and admins see every request |
| RequestController.ValidateStatusChange | backend/controllers/requestController.js:223-231 | a status outside the five gives 400 "Invalid status"; 'rejected' without a truthy reason gives 400 "Rejection reason is required"; a pass keeps the reason only when rejecting |
| RequestController.AnyStatusFromAnyStatus | backend/controllers/requestController.js:223-248 | there is no transition rule: every status can be set from every request, and the update sets that status and the actor as assignee, keeps the request's own fields, and writes a reason only when rejecting |
| RequestController.UpdateRequestStatus | backend/controllers/requestController.js:214-262 | both checks come before the lookup; an unknown id is 404; refusals change nothing; success replaces only that row, with the new status and the actor as assignee |
| RequestController.DeleteVerdict | backend/controllers/requestController.js:290-298 | a student may delete only their own request ("Access denied" otherwise) and only while it is pending; every other role passes |
| RequestController.DeletableIsViewable | backend/controllers/requestController.js:284-298 | whoever may delete a request may also view it |
| RequestController.DeleteRequest | backend/controllers/requestController.js:272-305 | 404 for an unknown id, then the ownership checks; refusals change nothing; success removes exactly that row |
| FeedbackController.FeedbackVerdict | backend/controllers/feedbackController.js:10-46 | the checks in order, each with its own status: required fields (rating 0 counts as missing), the 1..5 range, 404, 403 for another's request, 400 unless completed, 409 if already rated; a pass exactly when all hold |
| FeedbackController.StoredComment | backend/controllers/feedbackController.js:53 | an empty or missing comment is stored as NULL, any other as sent |
| FeedbackController.SubmitFeedback | backend/controllers/feedbackController.js:4-59 | only a pass writes, and then exactly one row for that request, which had none; every refusal changes nothing |
| FeedbackController.NegativeRequestIdNotFound | backend/controllers/feedbackController.js:10-26 | a negative request id is truthy, so it passes the required-field check, names no request, and a submission with a valid rating gets 404 "Request not found" |
| FeedbackController.SecondSubmissionRefused | backend/controllers/feedbackController.js:39-46 | once a request has feedback every later submission is refused, with 409 when it passes the earlier checks |
| FeedbackController.GetFeedbackByRequest | backend/controllers/feedbackController.js:66-85 | the request's feedback row exactly when it exists and the joins with the request and its student keep it, otherwise 404 "No feedback found for this request" |
| FeedbackController.FeedbackFollowsItsRequest | backend/controllers/feedbackController.js:71-81 | in a consistent store the feedback is returned exactly when both it and its request exist, so a deleted request's feedback gets the 404 |
| FeedbackController.BuildFeedbackListing | backend/controllers/feedbackController.js:110-126 | the statement built step by step equals the compiled minRating, maxRating filters, newest first, with LIMIT and OFFSET (defaults 50 and 0) |
| FeedbackController.FeedbackListingMeaning | backend/controllers/feedbackController.js:113-126 | the listing keeps exactly the feedback whose rating lies within the given bounds, and has n + 2 parameters for n bounds |
| FeedbackController.ListedFeedbackMeaning | backend/controllers/feedbackController.js:100-126 | in a consistent store the listing holds the feedback of exactly the requests that still exist and whose rating lies within the bounds |
| ServiceController.NameOrderTotal | backend/controllers/serviceController.js:7 | any two names are ordered one way or the other |
| ServiceController.NameOrderAntisymmetric | backend/controllers/serviceController.js:7 | names that sort both ways are equal |
| ServiceController.NameOrderTransitive | backend/controllers/serviceController.js:7 | the name order is transitive |
| ServiceController.DepartmentsByName | backend/controllers/serviceController.js:7 | in the departments listing, departments sharing a name come in one run |
| ServiceController.FirstDepartmentLeast | backend/controllers/serviceController.js:7 | the first department listed has the least name of all |
| ServiceController.DepartmentsContiguous | backend/controllers/serviceController.js:38 | in the services listing, services sharing a department name form one run |
| ServiceController.BuildServiceListing | backend/controllers/serviceController.js:31-38 | the statement built step by step equals the compiled deptId filter, ordered by department then service, without LIMIT |
| ServiceController.ServiceListingMeaning | backend/controllers/serviceController.js:31-38 | one placeholder and one parameter exactly when deptId is given, numbered correctly, and the listing keeps exactly that department's services |
| ServiceController.GetServiceById | backend/controllers/serviceController.js:55-67 | the service joined with its department, or 404 "Service not found" (also when the department row is gone) |
| ServiceController.ValidateService | backend/controllers/serviceController.js:82-92 | a missing name or a falsy department id gives 400; a falsy default priority becomes 'medium', any other is kept |
| ServiceController.CreateService | backend/controllers/serviceController.js:78-98 | refusals change nothing; a department id with no department gives the foreign-key 400; success adds exactly one row under the next id |
| ServiceController.ValidateDepartment | backend/controllers/serviceController.js:109-117 | a missing name gives 400; a falsy capacity becomes 50 and a falsy SLA 48, so neither is stored as 0 |
| ServiceController.CreateDepartment | backend/controllers/serviceController.js:105-123 | refusal changes nothing; success adds exactly one row under the next id |
| ServiceController.PatchReplacesOnlySupplied | backend/controllers/serviceController.js:136-142 | each supplied field is written (even '' or 0) and each unsupplied one is kept |
| ServiceController.PatchIdempotent | backend/controllers/serviceController.js:136-142 | sending the same update twice equals sending it once, and an empty update changes nothing |
| ServiceController.PatchesCompose | backend/controllers/serviceController.js:136-142 | two updates act as one taking each field from the later update where it supplies it |
| ServiceController.UpdateDepartment | backend/controllers/serviceController.js:130-151 | 404 "Department not found" with nothing changed, or only that row replaced by its patched value |
| Routes.Find | backend/routes/requestRoutes.js:17-26 | a route is found exactly when some registered route matches, and the one found is registered and matches |
| Routes.FindFirst | backend/routes/requestRoutes.js:17-26 | the first matching route in registration order is the one found |
| Routes.Refusal | backend/middleware/auth.js:28-34 | a chain refuses a role exactly when one of its role guards does not list it; the refusal is the role list of the first such guard, every guard before it admitting the role |
| Routes.ChainWithToken | backend/middleware/auth.js:12-36 | with a verified token for c, a guard chain lets the request through with `req.user` = c exactly when every role guard lists c's role, and otherwise answers with the first refusing guard's 403 |
| Routes.ChainWithoutToken | backend/middleware/auth.js:8-15 | a chain that opens with authenticateToken answers a missing or rejected token with authenticateToken's own reply |
| Routes.Dispatch | backend/routes/requestRoutes.js:14-26 | with a verified token, a matched request reaches its handler with `req.user` = c exactly when the router's and the route's role guards list c's role, and is refused by the first that does not |
| Routes.RequestGuardTable | backend/routes/requestRoutes.js:17-26 | listing all requests and changing a status carry isAdminOrStaff, the other four routes no guard of their own |
| Routes.RequestAccess | backend/routes/requestRoutes.js:14-26 | without a usable token every request gets authenticateToken's reply; with one, a student is refused the two staff endpoints with 403 and everything else is reached |
| Routes.RequestGetById | backend/routes/requestRoutes.js:18-25 | any one-segment GET other than '/my-requests' reaches getRequestById; '/my-requests' is never taken for an id |
| Routes.RequestGetDispatch | backend/routes/requestRoutes.js:18-25 | for GET, first-match dispatch reaches exactly the handler RequestEndpoint names: the listing, '/my-requests', or getRequestById for any other one-segment path |
| Routes.RequestGetNone | backend/routes/requestRoutes.js:18-25 | a GET path that is neither the root, '/my-requests' nor one non-empty segment matches no request route |
| Routes.RequestWriteDispatch | backend/routes/requestRoutes.js:17-26 | for POST, PATCH and DELETE, first-match dispatch reaches exactly the handler RequestEndpoint names |
| Routes.RequestPatch | backend/routes/requestRoutes.js:22 | PATCH reaches updateRequestStatus exactly on '/:id/status' |
| Routes.RequestDelete | backend/routes/requestRoutes.js:26 | DELETE reaches deleteRequest exactly on '/:id' |
| Routes.RequestDispatch | backend/routes/requestRoutes.js:17-26 | first-match dispatch reaches exactly the handler RequestEndpoint names for every method and path |
| Routes.FeedbackGuardTable | backend/routes/feedbackRoutes.js:14-20 | only listing all feedback carries isAdminOrStaff |
| Routes.FeedbackAccess | backend/routes/feedbackRoutes.js:11-20 | without a usable token, authenticateToken's reply; with one, submitting and reading one request's feedback are open to every role, and a student is refused the full listing |
| Routes.FeedbackDispatch | backend/routes/feedbackRoutes.js:14-20 | first-match dispatch reaches exactly the handler FeedbackEndpoint names |
| Routes.AnalyticsGuardTable | backend/routes/analyticsRoutes.js:22-33 | user-activity and refresh-monthly carry isAdmin, the eight reads no guard of their own |
| Routes.AnalyticsAccess | backend/routes/analyticsRoutes.js:18-33 | a missing or rejected token gets authenticateToken's reply; a student is refused everything with 403; staff reach all but the two admin-only endpoints; admin reaches all |
| Routes.AnalyticsDispatch | backend/routes/analyticsRoutes.js:22-33 | first-match dispatch reaches exactly the handler AnalyticsEndpoint names |
| Routes.AnalyticsMissingToken | backend/routes/analyticsRoutes.js:18-19 | without a token every analytics request gets 401 "Access token required", never a role 403 |
| Routes.ServiceGuardTable | backend/routes/serviceRoutes.js:14-21 | the three reads carry no guard, the three writes authenticateToken then isAdmin |
| Routes.AdminChain | backend/routes/serviceRoutes.js:19-21 | authenticateToken then isAdmin admits admin alone and refuses every other role with isAdmin's 403 |
| Routes.ServiceAccess | backend/routes/serviceRoutes.js:14-21 | reads are reached by anyone, token or not, with `req.user` unset; writes answer a missing or rejected token with authenticateToken's reply, refuse staff and students with 403, and let admin through |
| Routes.ServiceGetDispatch | backend/routes/serviceRoutes.js:14-16 | first-match dispatch of a GET reaches exactly the handler ServiceEndpoint names |
| Routes.ServiceWriteDispatch | backend/routes/serviceRoutes.js:19-21 | the same for POST, PATCH and DELETE |
| Routes.ServiceDispatch | backend/routes/serviceRoutes.js:14-21 | first-match dispatch reaches exactly the handler ServiceEndpoint names for every method and path |
| ProtectedRoute.Decide | frontend/src/components/ProtectedRoute.js:5-33 | loading shows the spinner whatever else holds; then not signed in goes to /login; the page renders exactly when signed in and every requirement is met; any other case goes to /dashboard |
| ProtectedRoute.DefaultsAdmitEverySignedInUser | frontend/src/components/ProtectedRoute.js:5-33 | with both props at their default, every signed-in user sees the page |
| ProtectedRoute.StrongerRequirementsRefuseMore | frontend/src/components/ProtectedRoute.js:25-31 | adding requirements never admits more, and a refusal stays the same refusal |
| ProtectedRoute.RedirectTargets | frontend/src/components/ProtectedRoute.js:8-23 | /login exactly when loaded and not signed in; no redirect while loading |
| Scenario.StudentCannotCreateDepartment | backend/routes/serviceRoutes.js:20 | a signed-in student posting a department gets isAdmin's 403 naming admin |
| Scenario.FirstSession | backend/controllers/authController.js:19-105 | on a fresh store a student registers as user 1; their token is refused by the admin-only route with 403; a guess that bcrypt does not match against the stored digest gets the generic 401; the password itself logs the same user in, with a token that authenticates as that student |

## Left out

- SQL text is not modelled: statements are abstracted to conditions, placeholder numbers, an ORDER BY tag and paging slots. The joined columns (a request listing row's student name, service name and feedback rating, for example) are not modelled. The joins decide which rows come back only in getServiceById and the two feedback reads, since the store's foreign keys keep every other join from dropping a row.
- The database's own logic is not modelled: the feedback trigger that re-checks completion on insert, the views and functions behind the analytics, and timestamps other than the insert time.
- The foreign keys from `requests.user_id`, `requests.service_id` and `service_types.dept_id` are assumed to exist, with the usual SQLSTATE 23503; the schema is not part of this model. Other constraints, such as a unique department name, are not modelled.
- DeleteRequest: what the schema does on deleting a request that has feedback or log rows (cascade, refuse, or keep them) is not known here; the model lets the delete succeed and keeps the feedback row, which the joins of both feedback reads then hide.
- `BEGIN/COMMIT/ROLLBACK` and the connection pool in updateRequestStatus are left out: each handler's write is atomic and handlers do not interleave.
- The request activity log that getRequestById also returns is left out: `request_logs` is filled by the database, not by the handlers.
- backend/controllers/analyticsController.js is not part of this model: its handlers only pass opaque SQL aggregates through. Its routes and guards are modelled.
- backend/server.js (mounting, CORS, logging, shutdown) and the auth routes are not part of this model; the mount points are noted in comments.
- Express path matching is reduced to exact, case-sensitive segment matching. Trailing slashes, URL decoding and case-insensitive matching are not modelled.
- A request is dispatched by the router the model names; the fall-through from a router to the next one and finally to notFound is shown only as `NoRoute`.
- Numeric body fields (request and service ids, rating, department id, capacity, SLA hours) are typed as integers, so a negative id is modelled: it passes the required-field checks and then names no row. Path ids are natural numbers, so a negative path id, which the source answers like any unknown id, is not covered. So the model does not cover a rating of 4.5 or 'abc', a path id such as 'abc', or a number beyond PostgreSQL's `integer` range. The source lets such values past its JavaScript checks, and the database then refuses them (SQLSTATE 22P02 or 22003), which the error handler answers with 500 "Database error".
- Pagination values are passed through as numbers. `parseInt` of limit and offset in the reply is not modelled, and neither is a non-numeric query value that PostgreSQL would reject at bind time.
- RequestController.ListingOrderMeaning: the order of the statement's result is stated as a sort specification, not produced. Dates are natural numbers.
- ServiceController.DepartmentsContiguous: PostgreSQL's collation is replaced by code-point order of the characters.
- FeedbackController.BuildFeedbackListing: "newest first" is a tag on the statement. Unlike the request listing, no sort lemma is stated for it.
- getMyRequests is modelled by which rows it returns (`OwnRequests`), not by their order (newest first).
- The token claims carry a `Role`. The model does not cover a payload with a role string outside the three, which only a token signed elsewhere with the same secret could carry.
- bcrypt compares only the first 72 bytes of a password, so two passwords that agree on those match each other's digest; the model assumes no law of `compare`, and FirstSession requires the one non-match it uses.
- bcrypt and jsonwebtoken are parameters; their algorithms, the secret, expiry timing and the salt generation are outside the model. The expiry string (`JWT_EXPIRES_IN` or '24h') is passed to the signer as given.
- The frontend pages, the navigation bar, the axios client and the auth context behind `isAdmin()`/`isStaff()` are not part of this model.
- Logging (`console.error`) and the error `detail`/`message` fields of the database error replies are not modelled.
