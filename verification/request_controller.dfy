/** The request lifecycle of backend/controllers/requestController.js:
    submitting a request, the staff listing and its query builder, viewing,
    changing status and deleting, over the requests table of the store.
    The caller is the verified claims that authenticateToken put on
    `req.user`. */
module RequestController {
  import opened Common
  import opened Store
  import opened Sql
  import ErrorHandler

  // ---------------------------------------------------------------------
  // createRequest
  // ---------------------------------------------------------------------

  datatype NewRequestBody = NewRequestBody(serviceId: Option<int>, title: Option<string>, description: Option<string>, priority: Option<string>)

  datatype NewRequest = NewRequest(serviceId: int, title: string, description: string, priority: Priority)

  /** The checks of createRequest: four required fields, then a priority
      that must be one of low, medium, high. */
  function ValidateNewRequest(b: NewRequestBody): (v: Verdict<NewRequest>)
    ensures !TruthyInt(b.serviceId) || !Truthy(b.title) || !Truthy(b.description) || !Truthy(b.priority) ==>
              v == Fail(400, "Service ID, title, description, and priority are required")
    ensures v.Pass? <==>
              TruthyInt(b.serviceId) && Truthy(b.title) && Truthy(b.description) && Truthy(b.priority) &&
              b.priority.value in PriorityNames
    ensures v.Fail? && TruthyInt(b.serviceId) && Truthy(b.title) && Truthy(b.description) && Truthy(b.priority) ==>
              v == Fail(400, "Invalid priority level")
    ensures v.Pass? ==>
              v.value.serviceId == b.serviceId.value && v.value.title == b.title.value &&
              v.value.description == b.description.value && PriorityName(v.value.priority) == b.priority.value
  {
    if !TruthyInt(b.serviceId) || !Truthy(b.title) || !Truthy(b.description) || !Truthy(b.priority) then
      Fail(400, "Service ID, title, description, and priority are required")
    else
      match ParsePriority(b.priority.value)
      case None => Fail(400, "Invalid priority level")
      case Some(p) => Pass(NewRequest(b.serviceId.value, b.title.value, b.description.value, p))
  }

  /** createRequest: a valid body becomes one new row owned by the caller,
      always in status 'pending', unassigned, with no rejection reason. The
      service_id and user_id foreign keys refuse a service or a caller with
      no row, a negative service id included (SQLSTATE 23503), which the error handler reports as a 400. */
  method CreateRequest(db: Database, caller: Claims, body: NewRequestBody, now: nat) returns (reply: Reply<(nat, Request)>)
    requires db.Valid()
    modifies db`requests, db`nextRequestId
    ensures db.Valid()
    ensures ValidateNewRequest(body).Fail? ==>
              reply == Failure(400, ValidateNewRequest(body).error) && unchanged(db)
    ensures ValidateNewRequest(body).Pass? &&
            (body.serviceId.value < 0 || body.serviceId.value !in old(db.services) || caller.userId !in old(db.users)) ==>
              reply == Failure(400, "Referenced record does not exist") && unchanged(db)
    ensures reply.Success? <==>
              ValidateNewRequest(body).Pass? && body.serviceId.value >= 0 && body.serviceId.value in old(db.services) &&
              caller.userId in old(db.users)
    ensures reply.Success? ==>
              var nr := ValidateNewRequest(body).value;
              var (id, r) := reply.payload;
              reply.status == 201 && id == old(db.nextRequestId) && id !in old(db.requests) &&
              db.requests == old(db.requests)[id := r] &&
              r.status == Pending && r.userId == caller.userId &&
              r.assignedTo.None? && r.rejectionReason.None? &&
              r.serviceId == nr.serviceId && r.title == nr.title &&
              r.description == nr.description && r.priority == nr.priority && r.submittedAt == now
  {
    var v := ValidateNewRequest(body);
    if v.Fail? {
      return Failure(v.status, v.error);
    }
    var nr := v.value;
    if nr.serviceId < 0 || nr.serviceId !in db.services || caller.userId !in db.users {
      var r := ErrorHandler.HandleError(ErrorHandler.DbError(ErrorHandler.ForeignKeyViolation));
      return Failure(r.status, r.error);
    }
    var id := db.nextRequestId;
    var r := Request(caller.userId, nr.serviceId as nat, nr.title, nr.description, nr.priority, Pending, None, None, now);
    db.requests := db.requests[id := r];
    db.nextRequestId := db.nextRequestId + 1;
    reply := Success(201, (id, r));
  }

  // ---------------------------------------------------------------------
  // getAllRequests
  // ---------------------------------------------------------------------

  /** The query string of the staff listing. A string filter counts when it
      is truthy; serviceId is the numeric value of a non-empty query value
      (so '0' still counts); limit and offset default to 50 and 0 when absent. */
  datatype ListQuery = ListQuery(status: Option<string>, priority: Option<string>, serviceId: Option<int>, limit: Option<int>, offset: Option<int>)

  /** The filters the listing applies, in its fixed order: status, priority, serviceId. */
  function RequestFilters(q: ListQuery): seq<Filter> {
    (if Truthy(q.status) then [Filter(StatusCol, Eq, Text(q.status.value))] else [])
    + (if Truthy(q.priority) then [Filter(PriorityCol, Eq, Text(q.priority.value))] else [])
    + (if q.serviceId.Some? then [Filter(ServiceCol, Eq, Int(q.serviceId.value))] else [])
  }

  function ListPage(q: ListQuery): Page {
    Page(Int(q.limit.GetOr(50)), Int(q.offset.GetOr(0)))
  }

  /** A requests row seen through the filterable columns. */
  function RequestRow(r: Request): Row {
    (c: Column) => match c
         case StatusCol => Some(Text(StatusName(r.status)))
         case PriorityCol => Some(Text(PriorityName(r.priority)))
         case ServiceCol => Some(Int(r.serviceId))
         case _ => None
  }

  /** What the caller of the listing asked for. */
  predicate MatchesQuery(q: ListQuery, r: Request) {
    && (Truthy(q.status) ==> StatusName(r.status) == q.status.value)
    && (Truthy(q.priority) ==> PriorityName(r.priority) == q.priority.value)
    && (q.serviceId.Some? ==> r.serviceId == q.serviceId.value)
  }

  /** getAllRequests' two statements, built step by step with the handler's own counters:
      the listing (filters, priority order, LIMIT and OFFSET) and the count
      (the same filters, numbered with its own counter, no paging). Both are
      the compiled form of the same filter list. */
  method BuildRequestListing(q: ListQuery) returns (list: Select, params: seq<Value>, count: Select, countParams: seq<Value>)
    ensures (list, params) == Compile(RequestFilters(q), PriorityThenNewest, Some(ListPage(q)))
    ensures (count, countParams) == Compile(RequestFilters(q), Unordered, None)
  {
    var conds: seq<Cond> := [];
    params := [];
    var paramCount: nat := 0;
    ghost var fs: seq<Filter> := [];
    if Truthy(q.status) {
      var f := Filter(StatusCol, Eq, Text(q.status.value));
      conds, params, paramCount := PushFilter(conds, params, paramCount, fs, f);
      fs := fs + [f];
    }
    if Truthy(q.priority) {
      var f := Filter(PriorityCol, Eq, Text(q.priority.value));
      conds, params, paramCount := PushFilter(conds, params, paramCount, fs, f);
      fs := fs + [f];
    }
    if q.serviceId.Some? {
      var f := Filter(ServiceCol, Eq, Int(q.serviceId.value));
      conds, params, paramCount := PushFilter(conds, params, paramCount, fs, f);
      fs := fs + [f];
    }
    assert fs == RequestFilters(q);
    list := Select(conds, PriorityThenNewest, Some(Paging(paramCount + 1, paramCount + 2)));
    params := params + [Int(q.limit.GetOr(50)), Int(q.offset.GetOr(0))];

    var countConds: seq<Cond> := [];
    countParams := [];
    var countParamNum: nat := 0;
    ghost var cfs: seq<Filter> := [];
    if Truthy(q.status) {
      var f := Filter(StatusCol, Eq, Text(q.status.value));
      countConds, countParams, countParamNum := PushFilter(countConds, countParams, countParamNum, cfs, f);
      cfs := cfs + [f];
    }
    if Truthy(q.priority) {
      var f := Filter(PriorityCol, Eq, Text(q.priority.value));
      countConds, countParams, countParamNum := PushFilter(countConds, countParams, countParamNum, cfs, f);
      cfs := cfs + [f];
    }
    if q.serviceId.Some? {
      var f := Filter(ServiceCol, Eq, Int(q.serviceId.value));
      countConds, countParams, countParamNum := PushFilter(countConds, countParams, countParamNum, cfs, f);
      cfs := cfs + [f];
    }
    assert cfs == RequestFilters(q);
    count := Select(countConds, Unordered, None);
    assert countParams + [] == countParams;
  }

  /** Either statement of the listing keeps a row exactly when the row has
      the requested status, priority and service. */
  lemma ListingMeaning(q: ListQuery, order: Order, page: Option<Page>, r: Request)
    ensures Selects(Compile(RequestFilters(q), order, page).0, Compile(RequestFilters(q), order, page).1, RequestRow(r))
            <==> MatchesQuery(q, r)
  {
    var row := RequestRow(r);
    CompileMeaning(RequestFilters(q), order, page, row);
    var a := if Truthy(q.status) then [Filter(StatusCol, Eq, Text(q.status.value))] else [];
    var b := if Truthy(q.priority) then [Filter(PriorityCol, Eq, Text(q.priority.value))] else [];
    var c := if q.serviceId.Some? then [Filter(ServiceCol, Eq, Int(q.serviceId.value))] else [];
    assert RequestFilters(q) == a + b + c;
    SatisfiesConcat(a + b, c, row);
    SatisfiesConcat(a, b, row);
    assert row(StatusCol) == Some(Text(StatusName(r.status)));
    assert row(PriorityCol) == Some(Text(PriorityName(r.priority)));
    assert row(ServiceCol) == Some(Int(r.serviceId));
    assert Satisfies(a, row) <==> (Truthy(q.status) ==> StatusName(r.status) == q.status.value);
    if Truthy(q.priority) {
      assert b[0].col == PriorityCol && b[0].value == Text(q.priority.value);
    }
    assert Satisfies(b, row) <==> (Truthy(q.priority) ==> PriorityName(r.priority) == q.priority.value);
    if q.serviceId.Some? {
      assert c[0].col == ServiceCol && c[0].value == Int(q.serviceId.value);
    }
    assert Satisfies(c, row) <==> (q.serviceId.Some? ==> r.serviceId == q.serviceId.value);
  }

  /** The ids of the rows the caller asked for. */
  function MatchingIds(requests: map<nat, Request>, q: ListQuery): set<nat> {
    set id | id in requests && MatchesQuery(q, requests[id])
  }

  /** The total the listing reports counts the same rows the listing pages
      through: the count statement keeps exactly the matching rows. */
  lemma CountAgreesWithListing(requests: map<nat, Request>, q: ListQuery)
    ensures var (list, params) := Compile(RequestFilters(q), PriorityThenNewest, Some(ListPage(q)));
            var (count, countParams) := Compile(RequestFilters(q), Unordered, None);
            (set id | id in requests && Selects(count, countParams, RequestRow(requests[id])))
              == (set id | id in requests && Selects(list, params, RequestRow(requests[id])))
              == MatchingIds(requests, q)
  {
    forall id | id in requests
      ensures MatchesQuery(q, requests[id]) <==>
                Selects(Compile(RequestFilters(q), Unordered, None).0, Compile(RequestFilters(q), Unordered, None).1, RequestRow(requests[id]))
      ensures MatchesQuery(q, requests[id]) <==>
                Selects(Compile(RequestFilters(q), PriorityThenNewest, Some(ListPage(q))).0,
                        Compile(RequestFilters(q), PriorityThenNewest, Some(ListPage(q))).1, RequestRow(requests[id]))
    {
      ListingMeaning(q, Unordered, None, requests[id]);
      ListingMeaning(q, PriorityThenNewest, Some(ListPage(q)), requests[id]);
    }
  }

  /** ORDER BY CASE priority WHEN 'high' THEN 1 WHEN 'medium' THEN 2 WHEN 'low' THEN 3. */
  function PriorityRank(p: Priority): nat {
    match p
    case High => 1
    case Medium => 2
    case Low => 3
  }

  /** a may be listed before b: higher priority first, then newer first. */
  predicate ListedBefore(a: Request, b: Request) {
    PriorityRank(a.priority) < PriorityRank(b.priority) ||
    (PriorityRank(a.priority) == PriorityRank(b.priority) && a.submittedAt >= b.submittedAt)
  }

  /** The order of the staff listing. */
  predicate InListingOrder(rs: seq<Request>) {
    forall i, j :: 0 <= i < j < |rs| ==> ListedBefore(rs[i], rs[j])
  }

  /** In the listing order every high-priority request comes before every
      request that is not high, and among equal priorities newer comes first. */
  lemma ListingOrderMeaning(rs: seq<Request>, i: nat, j: nat)
    requires InListingOrder(rs) && i < |rs| && j < |rs|
    ensures rs[i].priority == High && rs[j].priority != High ==> i < j
    ensures rs[i].priority == Low && rs[j].priority != Low ==> j < i
    ensures i < j && rs[i].priority == rs[j].priority ==> rs[i].submittedAt >= rs[j].submittedAt
  {
    if i != j {
      if i < j {
        assert ListedBefore(rs[i], rs[j]);
      } else {
        assert ListedBefore(rs[j], rs[i]);
      }
    }
  }

  // ---------------------------------------------------------------------
  // getMyRequests and getRequestById
  // ---------------------------------------------------------------------

  /** A student sees only their own requests; staff and admins see all. */
  predicate MayView(caller: Claims, r: Request) {
    caller.role != Student || r.userId == caller.userId
  }

  /** getMyRequests: the ids of the caller's own requests. */
  function OwnRequests(requests: map<nat, Request>, userId: nat): set<nat> {
    set id | id in requests && requests[id].userId == userId
  }

  /** For a student, "my requests" are exactly the requests getRequestById
      lets them open; for staff and admins they are some of them. */
  lemma OwnRequestsAreViewable(requests: map<nat, Request>, caller: Claims, id: nat)
    ensures caller.role == Student ==>
              (id in OwnRequests(requests, caller.userId) <==> id in requests && MayView(caller, requests[id]))
    ensures id in OwnRequests(requests, caller.userId) ==> MayView(caller, requests[id])
  {
  }

  /** getRequestById: 404 for an unknown id before any role check, 403 for a
      student who does not own the request, the row otherwise. Its inner
      joins (student, service type, department) never drop a row of a
      consistent store, whose foreign keys all name existing rows. */
  method GetRequestById(db: Database, caller: Claims, id: nat) returns (reply: Reply<Request>)
    requires db.Valid()
    ensures id !in db.requests ==> reply == Failure(404, "Request not found")
    ensures id in db.requests && !MayView(caller, db.requests[id]) ==> reply == Failure(403, "Access denied")
    ensures reply.Success? <==> id in db.requests && MayView(caller, db.requests[id])
    ensures reply.Success? ==> reply == Success(200, db.requests[id])
  {
    if id !in db.requests {
      return Failure(404, "Request not found");
    }
    var request := db.requests[id];
    if caller.role == Student && request.userId != caller.userId {
      return Failure(403, "Access denied");
    }
    reply := Success(200, request);
  }

  // ---------------------------------------------------------------------
  // updateRequestStatus
  // ---------------------------------------------------------------------

  datatype StatusBody = StatusBody(status: Option<string>, rejectionReason: Option<string>)

  /** A validated status change; the reason is present only for 'rejected'. */
  datatype StatusChange = StatusChange(status: Status, reason: Option<string>)

  /** The checks of updateRequestStatus, made before the request is looked
      up: a status from the five names, and a truthy reason for 'rejected'. */
  function ValidateStatusChange(b: StatusBody): (v: Verdict<StatusChange>)
    ensures b.status.None? || b.status.value !in StatusNames ==> v == Fail(400, "Invalid status")
    ensures v.Pass? <==>
              b.status.Some? && b.status.value in StatusNames &&
              (b.status.value == "rejected" ==> Truthy(b.rejectionReason))
    ensures v.Fail? && b.status.Some? && b.status.value in StatusNames ==>
              v == Fail(400, "Rejection reason is required")
    ensures v.Pass? ==> StatusName(v.value.status) == b.status.value
    ensures v.Pass? ==> (v.value.reason.Some? <==> v.value.status == Rejected)
    ensures v.Pass? && v.value.status == Rejected ==> v.value.reason == b.rejectionReason
  {
    if b.status.None? then Fail(400, "Invalid status")
    else match ParseStatus(b.status.value)
      case None => Fail(400, "Invalid status")
      case Some(s) =>
        if s == Rejected && !Truthy(b.rejectionReason) then Fail(400, "Rejection reason is required")
        else Pass(StatusChange(s, if s == Rejected then b.rejectionReason else None))
  }

  /** The UPDATE: the new status, the acting user as assignee, and the
      rejection reason written only when rejecting (an earlier reason is
      kept otherwise). */
  function Applied(r: Request, ch: StatusChange, staffId: nat): Request {
    r.(status := ch.status,
       assignedTo := Some(staffId),
       rejectionReason := if ch.status == Rejected then ch.reason else r.rejectionReason)
  }

  /** No transition rule: from any request, any of the five statuses can be
      set by some valid body, and the result has that status and the actor
      as assignee while the request's own fields stay. */
  lemma AnyStatusFromAnyStatus(r: Request, s: Status, staffId: nat)
    ensures exists b :: ValidateStatusChange(b).Pass? && ValidateStatusChange(b).value.status == s
    ensures forall b :: ValidateStatusChange(b).Pass? && ValidateStatusChange(b).value.status == s ==>
              var r' := Applied(r, ValidateStatusChange(b).value, staffId);
              r'.status == s && r'.assignedTo == Some(staffId) &&
              r'.userId == r.userId && r'.serviceId == r.serviceId && r'.title == r.title &&
              r'.description == r.description && r'.priority == r.priority && r'.submittedAt == r.submittedAt &&
              (s != Rejected ==> r'.rejectionReason == r.rejectionReason) &&
              (s == Rejected ==> r'.rejectionReason.Some? && r'.rejectionReason.value != "")
  {
    var b := StatusBody(Some(StatusName(s)), Some("reason"));
    ParseStatusName(s);
    assert ValidateStatusChange(b).Pass?;
  }

  /** updateRequestStatus: both checks come before the lookup, an unknown id
      is a 404, and each refusal leaves the table as it was. On success only
      the named row changes. */
  method UpdateRequestStatus(db: Database, caller: Claims, id: nat, body: StatusBody) returns (reply: Reply<Request>)
    requires db.Valid()
    modifies db`requests
    ensures db.Valid()
    ensures ValidateStatusChange(body).Fail? ==>
              reply == Failure(400, ValidateStatusChange(body).error) && unchanged(db)
    ensures ValidateStatusChange(body).Pass? && id !in old(db.requests) ==>
              reply == Failure(404, "Request not found") && unchanged(db)
    ensures reply.Success? <==> ValidateStatusChange(body).Pass? && id in old(db.requests)
    ensures reply.Success? ==>
              var r := Applied(old(db.requests)[id], ValidateStatusChange(body).value, caller.userId);
              db.requests == old(db.requests)[id := r] && reply == Success(200, r)
  {
    var v := ValidateStatusChange(body);
    if v.Fail? {
      return Failure(v.status, v.error);
    }
    if id !in db.requests {
      return Failure(404, "Request not found");
    }
    var r := Applied(db.requests[id], v.value, caller.userId);
    db.requests := db.requests[id := r];
    reply := Success(200, r);
  }

  // ---------------------------------------------------------------------
  // deleteRequest
  // ---------------------------------------------------------------------

  /** The ownership checks of deleteRequest for an existing row: a student
      may delete only their own request and only while it is pending; any
      other role deletes unconditionally. */
  function DeleteVerdict(caller: Claims, r: Request): (v: Verdict<()>)
    ensures v.Pass? <==> caller.role != Student || (r.userId == caller.userId && r.status == Pending)
    ensures caller.role == Student && r.userId != caller.userId ==> v == Fail(403, "Access denied")
    ensures caller.role == Student && r.userId == caller.userId && r.status != Pending ==>
              v == Fail(403, "Can only delete pending requests")
  {
    if caller.role == Student then
      if r.userId != caller.userId then Fail(403, "Access denied")
      else if r.status != Pending then Fail(403, "Can only delete pending requests")
      else Pass(())
    else Pass(())
  }

  /** A student allowed to delete a request is also allowed to view it. */
  lemma DeletableIsViewable(caller: Claims, r: Request)
    requires DeleteVerdict(caller, r).Pass?
    ensures MayView(caller, r)
  {
  }

  /** deleteRequest: 404 for an unknown id, then the ownership checks; a
      refusal leaves the table as it was, success removes exactly that row. */
  method DeleteRequest(db: Database, caller: Claims, id: nat) returns (reply: Reply<()>)
    requires db.Valid()
    modifies db`requests
    ensures db.Valid()
    ensures id !in old(db.requests) ==> reply == Failure(404, "Request not found") && unchanged(db)
    ensures id in old(db.requests) && DeleteVerdict(caller, old(db.requests)[id]).Fail? ==>
              reply == Failure(403, DeleteVerdict(caller, old(db.requests)[id]).error) && unchanged(db)
    ensures reply.Success? <==> id in old(db.requests) && DeleteVerdict(caller, old(db.requests)[id]).Pass?
    ensures reply.Success? ==> db.requests == old(db.requests) - {id}
  {
    if id !in db.requests {
      return Failure(404, "Request not found");
    }
    var v := DeleteVerdict(caller, db.requests[id]);
    if v.Fail? {
      return Failure(v.status, v.error);
    }
    db.requests := db.requests - {id};
    reply := Success(200, ());
  }
}
