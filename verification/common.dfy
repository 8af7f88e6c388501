/** Vocabulary shared by the whole portal: the closed sets of roles, request
    statuses and priorities as the backend spells them, the claims carried by
    a bearer token, JavaScript truthiness of request fields, and the shape of
    a handler's reply. */
module Common {

  datatype Option<+T> = None | Some(value: T) {
    function GetOr(default: T): T {
      match this
      case Some(v) => v
      case None => default
    }
  }

  // ---------------------------------------------------------------------
  // JavaScript truthiness. A request field the client left out (or sent as
  // null) is None; a field that is present can still be falsy: '' or 0.
  // ---------------------------------------------------------------------

  /** `!!s` for a string field. */
  predicate Truthy(s: Option<string>) {
    s.Some? && s.value != ""
  }

  /** `!!n` for a numeric field. */
  predicate TruthyInt(n: Option<int>) {
    n.Some? && n.value != 0
  }

  /** `s || fallback` for a string field. */
  function OrElse(s: Option<string>, fallback: string): string {
    if Truthy(s) then s.value else fallback
  }

  /** `n || fallback` for a numeric field. */
  function OrElseInt(n: Option<int>, fallback: int): int {
    if TruthyInt(n) then n.value else fallback
  }

  // ---------------------------------------------------------------------
  // Roles
  // ---------------------------------------------------------------------

  datatype Role = Student | Admin | Staff

  function RoleName(r: Role): string {
    match r
    case Student => "student"
    case Admin => "admin"
    case Staff => "staff"
  }

  /** The role names `register` accepts, in the order register lists them. */
  const RoleNames: seq<string> := ["student", "admin", "staff"]

  /** `validRoles.includes(s)`, returning the role it names. */
  function ParseRole(s: string): (r: Option<Role>)
    ensures r.Some? <==> s in RoleNames
    ensures r.Some? ==> RoleName(r.value) == s
  {
    if s == "student" then Some(Student)
    else if s == "admin" then Some(Admin)
    else if s == "staff" then Some(Staff)
    else None
  }

  lemma ParseRoleName(r: Role)
    ensures ParseRole(RoleName(r)) == Some(r)
  {
  }

  // ---------------------------------------------------------------------
  // Request priorities and statuses
  // ---------------------------------------------------------------------

  datatype Priority = Low | Medium | High

  function PriorityName(p: Priority): string {
    match p
    case Low => "low"
    case Medium => "medium"
    case High => "high"
  }

  const PriorityNames: seq<string> := ["low", "medium", "high"]

  /** `validPriorities.includes(s)`, returning the priority it names. */
  function ParsePriority(s: string): (r: Option<Priority>)
    ensures r.Some? <==> s in PriorityNames
    ensures r.Some? ==> PriorityName(r.value) == s
  {
    if s == "low" then Some(Low)
    else if s == "medium" then Some(Medium)
    else if s == "high" then Some(High)
    else None
  }

  datatype Status = Pending | Approved | InProgress | Completed | Rejected

  function StatusName(s: Status): string {
    match s
    case Pending => "pending"
    case Approved => "approved"
    case InProgress => "in_progress"
    case Completed => "completed"
    case Rejected => "rejected"
  }

  const StatusNames: seq<string> := ["pending", "approved", "in_progress", "completed", "rejected"]

  /** `validStatuses.includes(s)`, returning the status it names. */
  function ParseStatus(s: string): (r: Option<Status>)
    ensures r.Some? <==> s in StatusNames
    ensures r.Some? ==> StatusName(r.value) == s
  {
    if s == "pending" then Some(Pending)
    else if s == "approved" then Some(Approved)
    else if s == "in_progress" then Some(InProgress)
    else if s == "completed" then Some(Completed)
    else if s == "rejected" then Some(Rejected)
    else None
  }

  lemma ParseStatusName(s: Status)
    ensures ParseStatus(StatusName(s)) == Some(s)
  {
  }

  // ---------------------------------------------------------------------
  // Token claims and replies
  // ---------------------------------------------------------------------

  /** The payload `generateToken` signs and `authenticateToken` puts on `req.user`. */
  datatype Claims = Claims(userId: nat, email: string, role: Role)

  /** What a handler sends: a success status with its payload, or an error
      status with the `error` text of the JSON body. */
  datatype Reply<+T> = Success(status: nat, payload: T) | Failure(status: nat, error: string)

  /** The outcome of a handler's check chain: go on, or stop with a status
      and an `error` text. */
  datatype Verdict<+T> = Pass(value: T) | Fail(status: nat, error: string)
}
