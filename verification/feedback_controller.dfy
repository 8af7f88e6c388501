/** The feedback rules of backend/controllers/feedbackController.js: one
    rating per completed request, given by the student who owns it, and the
    two read paths. The feedback table is keyed by the id of the request it
    rates. */
module FeedbackController {
  import opened Common
  import opened Store
  import opened Sql

  datatype FeedbackBody = FeedbackBody(requestId: Option<int>, rating: Option<int>, comment: Option<string>)

  /** The check chain of submitFeedback, in submitFeedback's order: required
      fields (a rating of 0 counts as missing), the 1..5 range, the request's
      existence, ownership, completion, and no earlier feedback. `found` is
      the request row the id names; `alreadyRated` says whether feedback for
      it exists. Only a Pass leads to the insert. */
  function FeedbackVerdict(b: FeedbackBody, caller: Claims, found: Option<Request>, alreadyRated: bool): (v: Verdict<(int, int)>)
    ensures !TruthyInt(b.requestId) || !TruthyInt(b.rating) ==>
              v == Fail(400, "Request ID and rating are required")
    ensures TruthyInt(b.requestId) && TruthyInt(b.rating) && (b.rating.value < 1 || b.rating.value > 5) ==>
              v == Fail(400, "Rating must be between 1 and 5")
    ensures TruthyInt(b.requestId) && 1 <= b.rating.GetOr(0) <= 5 && found.None? ==>
              v == Fail(404, "Request not found")
    ensures TruthyInt(b.requestId) && 1 <= b.rating.GetOr(0) <= 5 && found.Some? && found.value.userId != caller.userId ==>
              v == Fail(403, "Can only submit feedback for your own requests")
    ensures TruthyInt(b.requestId) && 1 <= b.rating.GetOr(0) <= 5 && found.Some? && found.value.userId == caller.userId &&
            found.value.status != Completed ==>
              v == Fail(400, "Can only submit feedback for completed requests")
    ensures TruthyInt(b.requestId) && 1 <= b.rating.GetOr(0) <= 5 && found.Some? && found.value.userId == caller.userId &&
            found.value.status == Completed && alreadyRated ==>
              v == Fail(409, "Feedback already submitted for this request")
    ensures v.Pass? <==>
              TruthyInt(b.requestId) && b.rating.Some? && 1 <= b.rating.value <= 5 &&
              found.Some? && found.value.userId == caller.userId && found.value.status == Completed && !alreadyRated
    ensures v.Pass? ==> v.value == (b.requestId.value, b.rating.value)
  {
    if !TruthyInt(b.requestId) || !TruthyInt(b.rating) then Fail(400, "Request ID and rating are required")
    else if b.rating.value < 1 || b.rating.value > 5 then Fail(400, "Rating must be between 1 and 5")
    else if found.None? then Fail(404, "Request not found")
    else if found.value.userId != caller.userId then Fail(403, "Can only submit feedback for your own requests")
    else if found.value.status != Completed then Fail(400, "Can only submit feedback for completed requests")
    else if alreadyRated then Fail(409, "Feedback already submitted for this request")
    else Pass((b.requestId.value, b.rating.value))
  }

  /** `comment || null`: an empty or missing comment is stored as NULL. */
  function StoredComment(comment: Option<string>): (c: Option<string>)
    ensures c.None? <==> !Truthy(comment)
    ensures c.Some? ==> c == comment && c.value != ""
  {
    if Truthy(comment) then comment else None
  }

  /** submitFeedback: the check chain decides, and only a Pass writes, adding
      exactly one row for the rated request. A request that already has
      feedback is refused with 409, so there is never a second row for it. */
  method SubmitFeedback(db: Database, caller: Claims, body: FeedbackBody, now: nat) returns (reply: Reply<Feedback>)
    requires db.Valid()
    modifies db`feedback, db`nextFeedbackId
    ensures db.Valid()
    ensures var rid := body.requestId.GetOr(0);
            var found := if rid in old(db.requests) then Some(old(db.requests)[rid]) else None;
            var v := FeedbackVerdict(body, caller, found, rid in old(db.feedback));
            && (v.Fail? ==> reply == Failure(v.status, v.error) && unchanged(db))
            && (reply.Success? <==> v.Pass?)
            && (reply.Success? ==>
                  rid !in old(db.feedback) &&
                  db.feedback == old(db.feedback)[rid := reply.payload] &&
                  reply == Success(201, Feedback(old(db.nextFeedbackId), body.rating.value, StoredComment(body.comment), now)))
  {
    var rid := body.requestId.GetOr(0);
    var found := if rid in db.requests then Some(db.requests[rid]) else None;
    var v := FeedbackVerdict(body, caller, found, rid in db.feedback);
    if v.Fail? {
      return Failure(v.status, v.error);
    }
    var row := Feedback(db.nextFeedbackId, body.rating.value, StoredComment(body.comment), now);
    db.feedback := db.feedback[rid := row];
    db.nextFeedbackId := db.nextFeedbackId + 1;
    reply := Success(201, row);
  }

  /** A negative request id passes the required-field check (it is truthy)
      but names no row, so a submission with a valid rating gets the 404. */
  lemma NegativeRequestIdNotFound(db: Database, b: FeedbackBody, caller: Claims)
    requires b.requestId.Some? && b.requestId.value < 0 && b.rating.Some? && 1 <= b.rating.value <= 5
    ensures b.requestId.value !in db.requests
    ensures FeedbackVerdict(b, caller, None, b.requestId.value in db.feedback) == Fail(404, "Request not found")
  {
  }

  /** Once a request has feedback, every later submission for it is refused,
      whoever sends it and whatever its rating; if it gets past the earlier
      checks the refusal is the 409. */
  lemma SecondSubmissionRefused(b: FeedbackBody, caller: Claims, found: Option<Request>)
    ensures FeedbackVerdict(b, caller, found, true).Fail?
    ensures FeedbackVerdict(b, caller, found, false).Pass? ==>
              FeedbackVerdict(b, caller, found, true) == Fail(409, "Feedback already submitted for this request")
  {
  }

  /** The inner joins of getFeedbackByRequest: the rated request still
      exists, and so does the student who submitted it. */
  predicate RequestJoined(db: Database, rid: nat)
    reads db
  {
    rid in db.requests && db.requests[rid].userId in db.users
  }

  /** getFeedbackByRequest: the request's feedback row, or 404 when it has
      none or when the joins drop it, as they do once the rated request has
      been deleted. */
  method GetFeedbackByRequest(db: Database, requestId: nat) returns (reply: Reply<Feedback>)
    ensures reply.Success? <==> requestId in db.feedback && RequestJoined(db, requestId)
    ensures reply.Failure? ==> reply == Failure(404, "No feedback found for this request")
    ensures reply.Success? ==> reply == Success(200, db.feedback[requestId])
  {
    if requestId !in db.feedback || !RequestJoined(db, requestId) {
      return Failure(404, "No feedback found for this request");
    }
    reply := Success(200, db.feedback[requestId]);
  }

  /** In a consistent store the student join never drops a row: the reply
      is the feedback exactly when the rated request still exists. A
      request deleted after it was rated hides its feedback. */
  lemma FeedbackFollowsItsRequest(db: Database, requestId: nat)
    requires db.Valid()
    ensures requestId in db.feedback && RequestJoined(db, requestId) <==>
              requestId in db.feedback && requestId in db.requests
  {
  }

  // ---------------------------------------------------------------------
  // getAllFeedback
  // ---------------------------------------------------------------------

  /** The query string of the feedback listing: numeric bounds that count
      whenever present (a non-empty query value, '0' included); limit and
      offset default to 50 and 0. */
  datatype FeedbackQuery = FeedbackQuery(minRating: Option<int>, maxRating: Option<int>, limit: Option<int>, offset: Option<int>)

  /** The filters in the fixed order minRating, maxRating. */
  function FeedbackFilters(q: FeedbackQuery): seq<Filter> {
    (if q.minRating.Some? then [Filter(RatingCol, AtLeast, Int(q.minRating.value))] else [])
    + (if q.maxRating.Some? then [Filter(RatingCol, AtMost, Int(q.maxRating.value))] else [])
  }

  function FeedbackPage(q: FeedbackQuery): Page {
    Page(Int(q.limit.GetOr(50)), Int(q.offset.GetOr(0)))
  }

  /** A feedback row seen through the filterable columns. */
  function FeedbackRow(f: Feedback): Row {
    (c: Column) => if c == RatingCol then Some(Int(f.rating)) else None
  }

  /** getAllFeedback's statement, built step by step: the bounds numbered
      $1..$n, then ORDER BY submitted_at DESC LIMIT $(n+1) OFFSET $(n+2). */
  method BuildFeedbackListing(q: FeedbackQuery) returns (list: Select, params: seq<Value>)
    ensures (list, params) == Compile(FeedbackFilters(q), Newest, Some(FeedbackPage(q)))
  {
    var conds: seq<Cond> := [];
    params := [];
    var paramCount: nat := 0;
    ghost var fs: seq<Filter> := [];
    if q.minRating.Some? {
      var f := Filter(RatingCol, AtLeast, Int(q.minRating.value));
      conds, params, paramCount := PushFilter(conds, params, paramCount, fs, f);
      fs := fs + [f];
    }
    if q.maxRating.Some? {
      var f := Filter(RatingCol, AtMost, Int(q.maxRating.value));
      conds, params, paramCount := PushFilter(conds, params, paramCount, fs, f);
      fs := fs + [f];
    }
    assert fs == FeedbackFilters(q);
    list := Select(conds, Newest, Some(Paging(paramCount + 1, paramCount + 2)));
    params := params + [Int(q.limit.GetOr(50)), Int(q.offset.GetOr(0))];
  }

  /** The inner joins of getAllFeedback: the rated request, its student, its
      service type and that service's department all exist. */
  predicate ListingJoined(db: Database, rid: nat)
    reads db
  {
    RequestJoined(db, rid) && db.requests[rid].serviceId in db.services &&
    db.services[db.requests[rid].serviceId].deptId in db.departments
  }

  /** The requests whose feedback getAllFeedback returns: the joined rows
      the compiled WHERE clause keeps. */
  function ListedFeedback(db: Database, q: FeedbackQuery): set<nat>
    reads db
  {
    var (list, params) := Compile(FeedbackFilters(q), Newest, Some(FeedbackPage(q)));
    set rid | rid in db.feedback && ListingJoined(db, rid) && Selects(list, params, FeedbackRow(db.feedback[rid]))
  }

  /** In a consistent store getAllFeedback lists the feedback of exactly the
      requests that still exist and whose rating lies within the bounds. */
  lemma ListedFeedbackMeaning(db: Database, q: FeedbackQuery, rid: nat)
    requires db.Valid()
    ensures rid in ListedFeedback(db, q) <==>
              rid in db.feedback && rid in db.requests &&
              (q.minRating.Some? ==> db.feedback[rid].rating >= q.minRating.value) &&
              (q.maxRating.Some? ==> db.feedback[rid].rating <= q.maxRating.value)
  {
    if rid in db.feedback {
      FeedbackListingMeaning(q, db.feedback[rid]);
    }
  }

  /** The listing keeps exactly the feedback rated within the given bounds,
      and has n + 2 parameters for its n bounds. */
  lemma FeedbackListingMeaning(q: FeedbackQuery, f: Feedback)
    ensures var (list, params) := Compile(FeedbackFilters(q), Newest, Some(FeedbackPage(q)));
            && (Selects(list, params, FeedbackRow(f)) <==>
                  (q.minRating.Some? ==> f.rating >= q.minRating.value) &&
                  (q.maxRating.Some? ==> f.rating <= q.maxRating.value))
            && |params| == |FeedbackFilters(q)| + 2
  {
    var row := FeedbackRow(f);
    var fs := FeedbackFilters(q);
    CompileMeaning(fs, Newest, Some(FeedbackPage(q)), row);
    CompiledLength(fs, 1);
    var a := if q.minRating.Some? then [Filter(RatingCol, AtLeast, Int(q.minRating.value))] else [];
    var b := if q.maxRating.Some? then [Filter(RatingCol, AtMost, Int(q.maxRating.value))] else [];
    SatisfiesConcat(a, b, row);
    assert row(RatingCol) == Some(Int(f.rating));
    if q.minRating.Some? {
      assert a[0] == Filter(RatingCol, AtLeast, Int(q.minRating.value));
    }
    if q.maxRating.Some? {
      assert b[0] == Filter(RatingCol, AtMost, Int(q.maxRating.value));
    }
  }
}
