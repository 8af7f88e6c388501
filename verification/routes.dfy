/** The four guard tables of backend/routes/: for each router, the
    middleware it applies to every request (`router.use`) and its routes in
    registration order, each with its own middleware list. A request runs
    the router-level guards, then the first route whose method and path
    match, then that route's guards; the handler is reached only when every
    guard lets it through. Paths are split into segments and are relative
    to the router's mount point. */
module Routes {
  import opened Common
  import opened AuthGate

  datatype Method = Get | Post | Patch | Delete

  /** A path pattern segment: literal text, or a `:name` parameter. */
  datatype Segment = Lit(text: string) | Param(name: string)

  /** The two middlewares the tables use: authenticateToken, and authorize
      with a role list (isAdminOrStaff, isAdmin). */
  datatype Guard = AuthenticateToken | RequireRole(roles: seq<Role>)

  datatype Handler =
    // requestRoutes
    | CreateRequest | GetMyRequests | GetAllRequests | UpdateRequestStatus | GetRequestById | DeleteRequest
    // feedbackRoutes
    | SubmitFeedback | GetAllFeedback | GetFeedbackByRequest
    // analyticsRoutes
    | DashboardOverview | DepartmentWorkload | ServicePerformance | PriorityDistribution
    | FeedbackRatings | PrioritySummary | MonthlyAnalytics | SlaCompliance
    | UserActivityReport | RefreshMonthlyAnalytics
    // serviceRoutes
    | GetAllDepartments | GetAllServices | GetServiceById | CreateService | CreateDepartment | UpdateDepartment

  datatype Route = Route(verb: Method, pattern: seq<Segment>, guards: seq<Guard>, handler: Handler)

  datatype Router = Router(use: seq<Guard>, routes: seq<Route>)

  /** A literal matches itself; a parameter matches any non-empty segment. */
  predicate SegmentMatches(seg: Segment, part: string) {
    match seg
    case Lit(t) => part == t
    case Param(_) => part != ""
  }

  predicate PathMatches(pattern: seq<Segment>, path: seq<string>) {
    if pattern == [] then path == []
    else path != [] && SegmentMatches(pattern[0], path[0]) && PathMatches(pattern[1..], path[1..])
  }

  /** A one-segment pattern matches exactly the one-segment paths whose
      segment it accepts. */
  lemma OneSegment(a: Segment, path: seq<string>)
    ensures PathMatches([a], path) <==> |path| == 1 && SegmentMatches(a, path[0])
  {
    if path != [] {
      assert [a][1..] == [];
    }
  }

  /** The same for two-segment patterns. */
  lemma TwoSegments(a: Segment, b: Segment, path: seq<string>)
    ensures PathMatches([a, b], path) <==> |path| == 2 && SegmentMatches(a, path[0]) && SegmentMatches(b, path[1])
  {
    if path != [] {
      assert [a, b][1..] == [b];
      OneSegment(b, path[1..]);
    }
  }

  predicate Matches(rt: Route, m: Method, path: seq<string>) {
    rt.verb == m && PathMatches(rt.pattern, path)
  }

  /** The route Express dispatches to: the first registered one that matches. */
  function Find(routes: seq<Route>, m: Method, path: seq<string>): (r: Option<Route>)
    ensures r.Some? <==> exists i :: 0 <= i < |routes| && Matches(routes[i], m, path)
    ensures r.Some? ==> r.value in routes && Matches(r.value, m, path)
  {
    if routes == [] then None
    else if Matches(routes[0], m, path) then Some(routes[0])
    else
      var r := Find(routes[1..], m, path);
      assert forall i :: 1 <= i < |routes| ==> routes[i] == routes[1..][i - 1];
      r
  }

  /** The first matching route is the one found. */
  lemma {:induction false} FindFirst(routes: seq<Route>, m: Method, path: seq<string>, k: nat)
    requires k < |routes| && Matches(routes[k], m, path)
    requires forall j :: 0 <= j < k ==> !Matches(routes[j], m, path)
    ensures Find(routes, m, path) == Some(routes[k])
  {
    if k > 0 {
      var rest := routes[1..];
      assert forall j :: 0 <= j < k - 1 ==> rest[j] == routes[j + 1];
      FindFirst(rest, m, path, k - 1);
    }
  }

  /** The handler of the route found, if any. */
  function HandlerOf(found: Option<Route>): Option<Handler> {
    if found.Some? then Some(found.value.handler) else None
  }

  /** Where a guard chain leaves the request: going on with `req.user` as
      it now stands, or stopped with a reply. */
  datatype Step = Continue(user: Option<Claims>) | Stop(denial: Denial)

  /** The guards one after another; the first that denies answers. */
  function RunGuards(gs: seq<Guard>, auth: Gate, user: Option<Claims>): Step
  {
    if gs == [] then Continue(user)
    else
      var g := match gs[0]
        case AuthenticateToken => auth
        case RequireRole(roles) => Authorize(roles, user);
      match g
      case Deny(d) => Stop(d)
      case Allow(c) => RunGuards(gs[1..], auth, Some(c))
  }

  /** What happens to a request: a handler is reached with `req.user`, a
      guard answers instead, or no route of this router matches (the request
      falls through to the 404 of notFound). `auth` is what authenticateToken
      decides for the request, `Authenticate(header, verify)`: a pure
      function of the Authorization header, so every authenticateToken in a
      chain decides the same. */
  datatype Outcome = Reached(handler: Handler, user: Option<Claims>) | Halted(denial: Denial) | NoRoute

  function Handle(r: Router, m: Method, path: seq<string>, auth: Gate): Outcome {
    match RunGuards(r.use, auth, None)
    case Stop(d) => Halted(d)
    case Continue(u) =>
      match Find(r.routes, m, path)
      case None => NoRoute
      case Some(rt) =>
        match RunGuards(rt.guards, auth, u)
        case Stop(d) => Halted(d)
        case Continue(u') => Reached(rt.handler, u')
  }

  // ---------------------------------------------------------------------
  // What a guard chain decides
  // ---------------------------------------------------------------------

  /** Every role guard in the chain lists the role. */
  predicate Admits(gs: seq<Guard>, role: Role) {
    forall i :: 0 <= i < |gs| && gs[i].RequireRole? ==> role in gs[i].roles
  }

  /** The role list of the first role guard in the chain that does not list
      the role. */
  function Refusal(gs: seq<Guard>, role: Role): (r: Option<seq<Role>>)
    ensures r.None? <==> Admits(gs, role)
    ensures r.Some? ==> role !in r.value
    ensures r.Some? ==> exists i :: 0 <= i < |gs| && gs[i] == RequireRole(r.value) && Admits(gs[..i], role)
  {
    if gs == [] then None
    else if gs[0].RequireRole? && role !in gs[0].roles then
      assert gs[0] == RequireRole(gs[0].roles) && gs[..0] == [];
      Some(gs[0].roles)
    else
      assert forall i :: 1 <= i < |gs| ==> gs[i] == gs[1..][i - 1];
      var r := Refusal(gs[1..], role);
      if r.Some? then
        var i :| 0 <= i < |gs[1..]| && gs[1..][i] == RequireRole(r.value) && Admits(gs[1..][..i], role);
        assert gs[..i + 1] == [gs[0]] + gs[1..][..i];
        assert gs[i + 1] == RequireRole(r.value);
        r
      else r
  }

  /** With a token that verifies to c, and with `req.user` already c or set
      by an authenticateToken that opens the chain, a chain lets the request
      through exactly when every role guard in it lists c's role, and then
      `req.user` is c; otherwise the refusal is the 403 of the first role
      guard that does not list it. */
  lemma {:induction false} ChainWithToken(gs: seq<Guard>, auth: Gate, c: Claims, user: Option<Claims>)
    requires auth == Allow(c)
    requires user == Some(c) || (gs != [] && gs[0] == AuthenticateToken)
    ensures RunGuards(gs, auth, user) ==
              if Admits(gs, c.role) then Continue(Some(c)) else Stop(Insufficient(Refusal(gs, c.role).value, c.role))
  {
    if gs != [] {
      var rest := gs[1..];
      match gs[0]
      case AuthenticateToken =>
        ChainWithToken(rest, auth, c, Some(c));
      case RequireRole(roles) =>
        if c.role in roles {
          ChainWithToken(rest, auth, c, Some(c));
        }
    }
  }

  /** A request carrying a token that verifies to c, dispatched to a route
      by a router whose chain authenticates before any role check, reaches
      the route's handler with `req.user` = c exactly when the router's and
      the route's role guards all list c's role; otherwise the first guard
      that does not answers with its 403. */
  lemma Dispatch(r: Router, m: Method, path: seq<string>, auth: Gate, c: Claims)
    requires auth == Allow(c)
    requires Find(r.routes, m, path).Some?
    requires (r.use != [] && r.use[0] == AuthenticateToken) ||
             (r.use == [] && Find(r.routes, m, path).value.guards != [] &&
              Find(r.routes, m, path).value.guards[0] == AuthenticateToken)
    ensures var rt := Find(r.routes, m, path).value;
            Handle(r, m, path, auth) ==
              if !Admits(r.use, c.role) then Halted(Insufficient(Refusal(r.use, c.role).value, c.role))
              else if !Admits(rt.guards, c.role) then Halted(Insufficient(Refusal(rt.guards, c.role).value, c.role))
              else Reached(rt.handler, Some(c))
  {
    var rt := Find(r.routes, m, path).value;
    if r.use != [] {
      ChainWithToken(r.use, auth, c, None);
      if Admits(r.use, c.role) {
        ChainWithToken(rt.guards, auth, c, Some(c));
      }
    } else {
      ChainWithToken(rt.guards, auth, c, None);
    }
  }

  /** A chain that opens with authenticateToken answers a request whose
      token is missing or rejected with authenticateToken's own 401 or 403;
      no role guard is consulted, so it is never the role refusal. */
  lemma ChainWithoutToken(gs: seq<Guard>, auth: Gate, user: Option<Claims>)
    requires auth.Deny?
    requires gs != [] && gs[0] == AuthenticateToken
    ensures RunGuards(gs, auth, user) == Stop(auth.denial)
  {
  }

  // ---------------------------------------------------------------------
  // requestRoutes: mounted at /api/requests
  // ---------------------------------------------------------------------

  /** The request routes in registration order. */
  function RequestRoute(k: nat): Route
    requires k < 6
  {
    match k
    case 0 => Route(Post, [], [], CreateRequest)
    case 1 => Route(Get, [Lit("my-requests")], [], GetMyRequests)
    case 2 => Route(Get, [], [RequireRole(AdminOrStaff)], GetAllRequests)
    case 3 => Route(Patch, [Param("id"), Lit("status")], [RequireRole(AdminOrStaff)], UpdateRequestStatus)
    case 4 => Route(Get, [Param("id")], [], GetRequestById)
    case 5 => Route(Delete, [Param("id")], [], DeleteRequest)
  }

  const RequestRouter := Router([AuthenticateToken], seq(6, k requires 0 <= k < 6 => RequestRoute(k)))

  /** The two request endpoints behind isAdminOrStaff. */
  predicate StaffOnlyRequests(h: Handler) {
    h == GetAllRequests || h == UpdateRequestStatus
  }

  /** The request table: listing all requests and changing a status carry
      isAdminOrStaff, the four others nothing beyond the router's
      authenticateToken. */
  lemma RequestGuardTable(rt: Route)
    requires rt in RequestRouter.routes
    ensures rt.guards == (if StaffOnlyRequests(rt.handler) then [RequireRole(AdminOrStaff)] else [])
  {
  }


  /** Requests: without a usable token every request to the router, matched
      or not, gets authenticateToken's own reply; with a token for c, the
      route found is reached with `req.user` = c, except that a student is
      refused the two staff endpoints with a 403. */
  lemma RequestAccess(m: Method, path: seq<string>, auth: Gate)
    ensures auth.Deny? ==> Handle(RequestRouter, m, path, auth) == Halted(auth.denial)
    ensures auth.Allow? ==>
              var c := auth.user;
              match Find(RequestRouter.routes, m, path)
              case None => Handle(RequestRouter, m, path, auth) == NoRoute
              case Some(rt) =>
                Handle(RequestRouter, m, path, auth) ==
                  if StaffOnlyRequests(rt.handler) && c.role == Student then Halted(Insufficient(AdminOrStaff, Student))
                  else Reached(rt.handler, Some(c))
  {
    var r := RequestRouter;
    if auth.Deny? {
      ChainWithoutToken(r.use, auth, None);
    } else {
      ChainWithToken(r.use, auth, auth.user, None);
      if Find(r.routes, m, path).Some? {
        RequestGuardTable(Find(r.routes, m, path).value);
        Dispatch(r, m, path, auth, auth.user);
      }
    }
  }

  /** Which endpoint of requestRoutes a request reaches, written path shape
      by path shape: '/my-requests' is registered before '/:id', so it is
      never taken for an id, while any other non-empty segment is one. */
  function RequestEndpoint(m: Method, path: seq<string>): Option<Handler> {
    match m
    case Post => if path == [] then Some(CreateRequest) else None
    case Get =>
      if path == [] then Some(GetAllRequests)
      else if path == ["my-requests"] then Some(GetMyRequests)
      else if |path| == 1 && path[0] != "" then Some(GetRequestById)
      else None
    case Patch => if |path| == 2 && path[0] != "" && path[1] == "status" then Some(UpdateRequestStatus) else None
    case Delete => if |path| == 1 && path[0] != "" then Some(DeleteRequest) else None
  }

  /** First-match dispatch over the request table agrees with
      RequestEndpoint for every GET. */
  lemma RequestGetDispatch(path: seq<string>)
    ensures HandlerOf(Find(RequestRouter.routes, Get, path)) == RequestEndpoint(Get, path)
  {
    var rs := RequestRouter.routes;
    if path == [] {
      assert rs[2] == Route(Get, [], [RequireRole(AdminOrStaff)], GetAllRequests);
      assert rs[0].verb == Post && rs[1].pattern != [];
      FindFirst(rs, Get, path, 2);
    } else if path == ["my-requests"] {
      assert rs[1] == Route(Get, [Lit("my-requests")], [], GetMyRequests);
      assert rs[0].verb == Post;
      FindFirst(rs, Get, path, 1);
    } else if |path| == 1 && path[0] != "" {
      RequestGetById(path);
    } else {
      RequestGetNone(path);
    }
  }

  /** Request dispatch, whatever the method. */
  lemma RequestDispatch(m: Method, path: seq<string>)
    ensures HandlerOf(Find(RequestRouter.routes, m, path)) == RequestEndpoint(m, path)
  {
    if m == Get {
      RequestGetDispatch(path);
    } else {
      RequestWriteDispatch(m, path);
    }
  }

  /** A one-segment GET other than '/my-requests' reaches '/:id'. */
  lemma RequestGetById(path: seq<string>)
    requires |path| == 1 && path[0] != "" && path != ["my-requests"]
    ensures Find(RequestRouter.routes, Get, path) == Some(RequestRouter.routes[4])
  {
    var rs := RequestRouter.routes;
    assert rs[0].verb == Post && rs[3].verb == Patch;
    assert rs[1].pattern == [Lit("my-requests")] && rs[2].pattern == [];
    assert rs[4] == Route(Get, [Param("id")], [], GetRequestById);
    OneSegment(Lit("my-requests"), path);
    OneSegment(Param("id"), path);
    FindFirst(rs, Get, path, 4);
  }

  /** Any other GET path matches no request route. */
  lemma RequestGetNone(path: seq<string>)
    requires path != [] && path != ["my-requests"] && !(|path| == 1 && path[0] != "")
    ensures Find(RequestRouter.routes, Get, path) == None
  {
    var rs := RequestRouter.routes;
    assert rs[0].verb == Post && rs[3].verb == Patch && rs[5].verb == Delete;
    assert rs[1].pattern == [Lit("my-requests")] && rs[2].pattern == [] && rs[4].pattern == [Param("id")];
    OneSegment(Lit("my-requests"), path);
    OneSegment(Param("id"), path);
    assert forall j :: 0 <= j < |rs| ==> !Matches(rs[j], Get, path);
  }

  /** The same for POST, PATCH and DELETE. */
  lemma RequestWriteDispatch(m: Method, path: seq<string>)
    requires m != Get
    ensures HandlerOf(Find(RequestRouter.routes, m, path)) == RequestEndpoint(m, path)
  {
    var rs := RequestRouter.routes;
    match m
    case Post =>
      assert rs[0] == Route(Post, [], [], CreateRequest);
      assert forall j :: 1 <= j < 6 ==> rs[j].verb != Post;
      if path == [] {
        FindFirst(rs, m, path, 0);
      }
    case Patch =>
      RequestPatch(path);
    case Delete =>
      RequestDelete(path);
  }

  /** PATCH matches '/:id/status' alone. */
  lemma RequestPatch(path: seq<string>)
    ensures HandlerOf(Find(RequestRouter.routes, Patch, path)) == RequestEndpoint(Patch, path)
  {
    var rs := RequestRouter.routes;
    assert forall j :: 0 <= j < 6 && j != 3 ==> rs[j].verb != Patch;
    assert rs[3] == Route(Patch, [Param("id"), Lit("status")], [RequireRole(AdminOrStaff)], UpdateRequestStatus);
    TwoSegments(Param("id"), Lit("status"), path);
    if |path| == 2 && path[0] != "" && path[1] == "status" {
      FindFirst(rs, Patch, path, 3);
    }
  }

  /** DELETE matches '/:id' alone. */
  lemma RequestDelete(path: seq<string>)
    ensures HandlerOf(Find(RequestRouter.routes, Delete, path)) == RequestEndpoint(Delete, path)
  {
    var rs := RequestRouter.routes;
    assert forall j :: 0 <= j < 5 ==> rs[j].verb != Delete;
    assert rs[5] == Route(Delete, [Param("id")], [], DeleteRequest);
    OneSegment(Param("id"), path);
    if |path| == 1 && path[0] != "" {
      FindFirst(rs, Delete, path, 5);
    }
  }

  // ---------------------------------------------------------------------
  // feedbackRoutes: mounted at /api/feedback
  // ---------------------------------------------------------------------

  /** The feedback routes in registration order. */
  function FeedbackRoute(k: nat): Route
    requires k < 3
  {
    match k
    case 0 => Route(Post, [], [], SubmitFeedback)
    case 1 => Route(Get, [], [RequireRole(AdminOrStaff)], GetAllFeedback)
    case 2 => Route(Get, [Lit("request"), Param("requestId")], [], GetFeedbackByRequest)
  }

  const FeedbackRouter := Router([AuthenticateToken], seq(3, k requires 0 <= k < 3 => FeedbackRoute(k)))

  /** The feedback table: only the listing of all feedback carries
      isAdminOrStaff. */
  lemma FeedbackGuardTable(rt: Route)
    requires rt in FeedbackRouter.routes
    ensures rt.guards == (if rt.handler == GetAllFeedback then [RequireRole(AdminOrStaff)] else [])
  {
  }


  /** Feedback: without a usable token, authenticateToken's reply; with a
      token for c, submitting and reading one request's feedback are open to
      every role (ownership is left to the controller, and the read has no
      ownership check at all), and listing all feedback refuses students. */
  lemma FeedbackAccess(m: Method, path: seq<string>, auth: Gate)
    ensures auth.Deny? ==> Handle(FeedbackRouter, m, path, auth) == Halted(auth.denial)
    ensures auth.Allow? ==>
              var c := auth.user;
              match Find(FeedbackRouter.routes, m, path)
              case None => Handle(FeedbackRouter, m, path, auth) == NoRoute
              case Some(rt) =>
                Handle(FeedbackRouter, m, path, auth) ==
                  if rt.handler == GetAllFeedback && c.role == Student then Halted(Insufficient(AdminOrStaff, Student))
                  else Reached(rt.handler, Some(c))
  {
    var r := FeedbackRouter;
    if auth.Deny? {
      ChainWithoutToken(r.use, auth, None);
    } else {
      ChainWithToken(r.use, auth, auth.user, None);
      if Find(r.routes, m, path).Some? {
        FeedbackGuardTable(Find(r.routes, m, path).value);
        Dispatch(r, m, path, auth, auth.user);
      }
    }
  }

  /** Which endpoint of feedbackRoutes a request reaches. */
  function FeedbackEndpoint(m: Method, path: seq<string>): Option<Handler> {
    match m
    case Post => if path == [] then Some(SubmitFeedback) else None
    case Get =>
      if path == [] then Some(GetAllFeedback)
      else if |path| == 2 && path[0] == "request" && path[1] != "" then Some(GetFeedbackByRequest)
      else None
    case _ => None
  }

  /** First-match dispatch over the feedback table agrees with
      FeedbackEndpoint. */
  lemma FeedbackDispatch(m: Method, path: seq<string>)
    ensures HandlerOf(Find(FeedbackRouter.routes, m, path)) == FeedbackEndpoint(m, path)
  {
    var rs := FeedbackRouter.routes;
    assert rs[0] == Route(Post, [], [], SubmitFeedback);
    assert rs[1] == Route(Get, [], [RequireRole(AdminOrStaff)], GetAllFeedback);
    assert rs[2] == Route(Get, [Lit("request"), Param("requestId")], [], GetFeedbackByRequest);
    TwoSegments(Lit("request"), Param("requestId"), path);
    if m == Post && path == [] {
      FindFirst(rs, m, path, 0);
    } else if m == Get && path == [] {
      FindFirst(rs, m, path, 1);
    } else if m == Get && |path| == 2 && path[0] == "request" && path[1] != "" {
      FindFirst(rs, m, path, 2);
    } else {
      assert forall j :: 0 <= j < |rs| ==> !Matches(rs[j], m, path);
    }
  }

  // ---------------------------------------------------------------------
  // analyticsRoutes: mounted at /api/analytics
  // ---------------------------------------------------------------------

  /** The analytics routes in registration order. */
  function AnalyticsRoute(k: nat): Route
    requires k < 10
  {
    match k
    case 0 => Route(Get, [Lit("dashboard")], [], DashboardOverview)
    case 1 => Route(Get, [Lit("department-workload")], [], DepartmentWorkload)
    case 2 => Route(Get, [Lit("service-performance")], [], ServicePerformance)
    case 3 => Route(Get, [Lit("priority-distribution")], [], PriorityDistribution)
    case 4 => Route(Get, [Lit("feedback-ratings")], [], FeedbackRatings)
    case 5 => Route(Get, [Lit("priority-summary")], [], PrioritySummary)
    case 6 => Route(Get, [Lit("monthly")], [], MonthlyAnalytics)
    case 7 => Route(Get, [Lit("sla-compliance")], [], SlaCompliance)
    case 8 => Route(Get, [Lit("user-activity")], [RequireRole(AdminOnly)], UserActivityReport)
    case 9 => Route(Post, [Lit("refresh-monthly")], [RequireRole(AdminOnly)], RefreshMonthlyAnalytics)
  }

  const AnalyticsRouter := Router([AuthenticateToken, RequireRole(AdminOrStaff)], seq(10, k requires 0 <= k < 10 => AnalyticsRoute(k)))

  /** The admin-only subset of the analytics endpoints. */
  predicate AdminOnlyAnalytics(h: Handler) {
    h == UserActivityReport || h == RefreshMonthlyAnalytics
  }

  /** The analytics table: the two admin-only endpoints carry isAdmin, the
      eight others nothing beyond the router's own guards. */
  lemma AnalyticsGuardTable(rt: Route)
    requires rt in AnalyticsRouter.routes
    ensures rt.guards == (if AdminOnlyAnalytics(rt.handler) then [RequireRole(AdminOnly)] else [])
  {
  }


  /** Analytics: a missing or rejected token gets authenticateToken's 401 or
      403 before any role check; a student is refused everything, even a
      path no route matches; staff reach every endpoint except the two
      admin-only ones, which refuse them with a 403; admin reaches all. */
  lemma AnalyticsAccess(m: Method, path: seq<string>, auth: Gate)
    ensures auth.Deny? ==>
              Handle(AnalyticsRouter, m, path, auth) == Halted(auth.denial)
    ensures auth.Allow? && auth.user.role == Student ==>
              Handle(AnalyticsRouter, m, path, auth) == Halted(Insufficient(AdminOrStaff, Student))
    ensures auth.Allow? && auth.user.role != Student ==>
              var c := auth.user;
              match Find(AnalyticsRouter.routes, m, path)
              case None => Handle(AnalyticsRouter, m, path, auth) == NoRoute
              case Some(rt) =>
                Handle(AnalyticsRouter, m, path, auth) ==
                  if AdminOnlyAnalytics(rt.handler) && c.role == Staff then Halted(Insufficient(AdminOnly, Staff))
                  else Reached(rt.handler, Some(c))
  {
    var r := AnalyticsRouter;
    if auth.Deny? {
      ChainWithoutToken(r.use, auth, None);
    } else {
      var c := auth.user;
      ChainWithToken(r.use, auth, c, None);
      if c.role != Student && Find(r.routes, m, path).Some? {
        AnalyticsGuardTable(Find(r.routes, m, path).value);
        Dispatch(r, m, path, auth, c);
      }
    }
  }

  /** The report an analytics path names, in registration order. */
  function AnalyticsReport(name: string): Option<Handler> {
    if name == "dashboard" then Some(DashboardOverview)
    else if name == "department-workload" then Some(DepartmentWorkload)
    else if name == "service-performance" then Some(ServicePerformance)
    else if name == "priority-distribution" then Some(PriorityDistribution)
    else if name == "feedback-ratings" then Some(FeedbackRatings)
    else if name == "priority-summary" then Some(PrioritySummary)
    else if name == "monthly" then Some(MonthlyAnalytics)
    else if name == "sla-compliance" then Some(SlaCompliance)
    else if name == "user-activity" then Some(UserActivityReport)
    else None
  }

  /** Which endpoint of analyticsRoutes a request reaches: a GET of one of
      nine report names, or the POST that refreshes the monthly view. */
  function AnalyticsEndpoint(m: Method, path: seq<string>): Option<Handler> {
    if m == Get && |path| == 1 then AnalyticsReport(path[0])
    else if m == Post && path == ["refresh-monthly"] then Some(RefreshMonthlyAnalytics)
    else None
  }

  /** Every analytics route is a GET or POST of one literal segment. */
  lemma AnalyticsShape(k: nat)
    requires k < |AnalyticsRouter.routes|
    ensures var rt := AnalyticsRouter.routes[k];
            (rt.verb == Get) == (k < 9) && |rt.pattern| == 1 && rt.pattern[0].Lit? &&
            (k < 9 ==> AnalyticsReport(rt.pattern[0].text) == Some(rt.handler)) &&
            (k == 9 ==> rt.verb == Post && rt.pattern[0].text == "refresh-monthly" && rt.handler == RefreshMonthlyAnalytics)
  {
  }

  /** First-match dispatch over the analytics table agrees with
      AnalyticsEndpoint. */
  lemma AnalyticsDispatch(m: Method, path: seq<string>)
    ensures HandlerOf(Find(AnalyticsRouter.routes, m, path)) == AnalyticsEndpoint(m, path)
  {
    var rs := AnalyticsRouter.routes;
    if AnalyticsEndpoint(m, path).Some? {
      var k := AnalyticsIndex(m, path);
      OneSegment(rs[k].pattern[0], path);
      assert Matches(rs[k], m, path);
    }
    var found := Find(rs, m, path);
    if found.Some? {
      var k :| 0 <= k < |rs| && rs[k] == found.value;
      AnalyticsShape(k);
      OneSegment(rs[k].pattern[0], path);
      assert rs[k].pattern == [rs[k].pattern[0]];
    }
  }

  /** The analytics route an AnalyticsEndpoint path matches. */
  function AnalyticsIndex(m: Method, path: seq<string>): (k: nat)
    requires AnalyticsEndpoint(m, path).Some?
    ensures k < 10 && AnalyticsRoute(k).verb == m && AnalyticsRoute(k).pattern == [Lit(path[0])]
  {
    if m == Post then 9
    else
      var name := path[0];
      if name == "dashboard" then 0
      else if name == "department-workload" then 1
      else if name == "service-performance" then 2
      else if name == "priority-distribution" then 3
      else if name == "feedback-ratings" then 4
      else if name == "priority-summary" then 5
      else if name == "monthly" then 6
      else if name == "sla-compliance" then 7
      else 8
  }

  /** A request without an Authorization header, or with one that has no
      second word, gets the 401 of authenticateToken from every analytics
      route: never the 403 of a role check. */
  lemma AnalyticsMissingToken(m: Method, path: seq<string>, header: Option<string>, verify: Verifier)
    requires ExtractToken(header).None?
    ensures Handle(AnalyticsRouter, m, path, Authenticate(header, verify)) == Halted(Reject(401, "Access token required"))
  {
    AnalyticsAccess(m, path, Authenticate(header, verify));
  }

  // ---------------------------------------------------------------------
  // serviceRoutes: mounted at /api
  // ---------------------------------------------------------------------

  /** The catalogue routes in registration order. */
  function ServiceRoute(k: nat): Route
    requires k < 6
  {
    match k
    case 0 => Route(Get, [Lit("departments")], [], GetAllDepartments)
    case 1 => Route(Get, [Lit("services")], [], GetAllServices)
    case 2 => Route(Get, [Lit("services"), Param("id")], [], GetServiceById)
    case 3 => Route(Post, [Lit("services")], [AuthenticateToken, RequireRole(AdminOnly)], CreateService)
    case 4 => Route(Post, [Lit("departments")], [AuthenticateToken, RequireRole(AdminOnly)], CreateDepartment)
    case 5 => Route(Patch, [Lit("departments"), Param("id")], [AuthenticateToken, RequireRole(AdminOnly)], UpdateDepartment)
  }

  const ServiceRouter := Router([], seq(6, k requires 0 <= k < 6 => ServiceRoute(k)))

  /** The catalogue's writes. */
  predicate CatalogueWrite(h: Handler) {
    h == CreateService || h == CreateDepartment || h == UpdateDepartment
  }

  /** The catalogue table: the three reads carry no guard at all, the three
      writes authenticateToken then isAdmin. */
  lemma ServiceGuardTable(rt: Route)
    requires rt in ServiceRouter.routes
    ensures rt.guards == (if CatalogueWrite(rt.handler) then [AuthenticateToken, RequireRole(AdminOnly)] else [])
  {
  }


  /** `authenticateToken, isAdmin` admits admin alone and refuses every
      other role with isAdmin's 403. */
  lemma AdminChain(role: Role)
    ensures Admits([AuthenticateToken, RequireRole(AdminOnly)], role) <==> role == Admin
    ensures role != Admin ==> Refusal([AuthenticateToken, RequireRole(AdminOnly)], role) == Some(AdminOnly)
  {
    var gs := [AuthenticateToken, RequireRole(AdminOnly)];
    assert gs[1..] == [RequireRole(AdminOnly)];
    assert gs[1].RequireRole?;
  }

  /** The catalogue: the reads are reached by anyone, with any header or
      none, and `req.user` unset; the writes answer a missing or rejected
      token with authenticateToken's reply before any role decision, refuse
      staff and students with a 403, and let admin through. */
  lemma ServiceAccess(m: Method, path: seq<string>, auth: Gate)
    requires Find(ServiceRouter.routes, m, path).Some?
    ensures var rt := Find(ServiceRouter.routes, m, path).value;
            var out := Handle(ServiceRouter, m, path, auth);
            && (!CatalogueWrite(rt.handler) ==> out == Reached(rt.handler, None))
            && (CatalogueWrite(rt.handler) && auth.Deny? ==>
                  out == Halted(auth.denial))
            && (CatalogueWrite(rt.handler) && auth.Allow? ==>
                  var c := auth.user;
                  out == if c.role == Admin then Reached(rt.handler, Some(c)) else Halted(Insufficient(AdminOnly, c.role)))
  {
    var r := ServiceRouter;
    var rt := Find(r.routes, m, path).value;
    ServiceGuardTable(rt);
    if CatalogueWrite(rt.handler) {
      if auth.Deny? {
        ChainWithoutToken(rt.guards, auth, None);
      } else {
        AdminChain(auth.user.role);
        Dispatch(r, m, path, auth, auth.user);
      }
    }
  }

  /** Which endpoint of serviceRoutes a request reaches. */
  function ServiceEndpoint(m: Method, path: seq<string>): Option<Handler> {
    match m
    case Get =>
      if path == ["departments"] then Some(GetAllDepartments)
      else if path == ["services"] then Some(GetAllServices)
      else if |path| == 2 && path[0] == "services" && path[1] != "" then Some(GetServiceById)
      else None
    case Post =>
      if path == ["services"] then Some(CreateService)
      else if path == ["departments"] then Some(CreateDepartment)
      else None
    case Patch =>
      if |path| == 2 && path[0] == "departments" && path[1] != "" then Some(UpdateDepartment) else None
    case Delete => None
  }

  /** First-match dispatch over the catalogue table agrees with
      ServiceEndpoint for the reads. */
  lemma ServiceGetDispatch(path: seq<string>)
    ensures HandlerOf(Find(ServiceRouter.routes, Get, path)) == ServiceEndpoint(Get, path)
  {
    var rs := ServiceRouter.routes;
    assert rs[0] == Route(Get, [Lit("departments")], [], GetAllDepartments);
    assert rs[1] == Route(Get, [Lit("services")], [], GetAllServices);
    assert rs[2] == Route(Get, [Lit("services"), Param("id")], [], GetServiceById);
    assert rs[3].verb == Post && rs[4].verb == Post && rs[5].verb == Patch;
    OneSegment(Lit("departments"), path);
    OneSegment(Lit("services"), path);
    TwoSegments(Lit("services"), Param("id"), path);
    if path == ["departments"] {
      FindFirst(rs, Get, path, 0);
    } else if path == ["services"] {
      FindFirst(rs, Get, path, 1);
    } else if |path| == 2 && path[0] == "services" && path[1] != "" {
      FindFirst(rs, Get, path, 2);
    } else {
      assert forall j :: 0 <= j < |rs| ==> !Matches(rs[j], Get, path);
    }
  }

  /** The same for the writes. */
  lemma ServiceWriteDispatch(m: Method, path: seq<string>)
    requires m != Get
    ensures HandlerOf(Find(ServiceRouter.routes, m, path)) == ServiceEndpoint(m, path)
  {
    var rs := ServiceRouter.routes;
    assert rs[0].verb == Get && rs[1].verb == Get && rs[2].verb == Get;
    assert rs[3] == Route(Post, [Lit("services")], [AuthenticateToken, RequireRole(AdminOnly)], CreateService);
    assert rs[4] == Route(Post, [Lit("departments")], [AuthenticateToken, RequireRole(AdminOnly)], CreateDepartment);
    assert rs[5] == Route(Patch, [Lit("departments"), Param("id")], [AuthenticateToken, RequireRole(AdminOnly)], UpdateDepartment);
    OneSegment(Lit("departments"), path);
    OneSegment(Lit("services"), path);
    TwoSegments(Lit("departments"), Param("id"), path);
    if m == Post && path == ["services"] {
      FindFirst(rs, m, path, 3);
    } else if m == Post && path == ["departments"] {
      FindFirst(rs, m, path, 4);
    } else if m == Patch && |path| == 2 && path[0] == "departments" && path[1] != "" {
      FindFirst(rs, m, path, 5);
    } else {
      assert forall j :: 0 <= j < |rs| ==> !Matches(rs[j], m, path);
    }
  }

  /** Catalogue dispatch, whatever the method. */
  lemma ServiceDispatch(m: Method, path: seq<string>)
    ensures HandlerOf(Find(ServiceRouter.routes, m, path)) == ServiceEndpoint(m, path)
  {
    if m == Get {
      ServiceGetDispatch(path);
    } else {
      ServiceWriteDispatch(m, path);
    }
  }
}
