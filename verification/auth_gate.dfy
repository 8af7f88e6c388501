/** The authorization gate of backend/middleware/auth.js: pulling the bearer
    token out of the Authorization header, verifying it, and checking the
    role on the verified claims. Each middleware is a pure function from the
    request to Allow (go on to the next handler, with `req.user` set) or Deny
    (the response it sends instead). */
module AuthGate {
  import opened Common

  /** `jwt.verify(token, JWT_SECRET)`: the decoded payload of a token whose
      signature and expiry check out, None for any other string. The secret
      and the clock are inside the oracle. */
  type Verifier = string -> Option<Claims>

  /** Why a middleware stopped the request. `Insufficient` is the 403 body of
      `authorize`, which names the roles it wanted and the role it saw. */
  datatype Denial =
    | Reject(status: nat, error: string)
    | Insufficient(required: seq<Role>, current: Role)
  {
    function Status(): nat {
      if Reject? then status else 403
    }
  }

  datatype Gate = Allow(user: Claims) | Deny(denial: Denial)

  // ---------------------------------------------------------------------
  // authHeader.split(' ')[1]
  // ---------------------------------------------------------------------

  /** Index of the first space in s, or |s| when s has none. */
  function FirstSpace(s: string): (i: nat)
    ensures i <= |s|
    ensures i < |s| ==> s[i] == ' '
    ensures forall j :: 0 <= j < i ==> s[j] != ' '
  {
    if s == [] then 0
    else if s[0] == ' ' then 0
    else 1 + FirstSpace(s[1..])
  }

  /** The element at index 1 of `s.split(' ')`: the text between the first
      and the second space (or the end), None (undefined) when s has no space. */
  function SecondField(s: string): (f: Option<string>)
    ensures f.None? <==> ' ' !in s
    ensures f.Some? ==> ' ' !in f.value
    ensures f.Some? ==>
              var start := FirstSpace(s) + 1;
              var end := start + |f.value|;
              end <= |s| && s[start..end] == f.value && (end == |s| || s[end] == ' ')
  {
    var i := FirstSpace(s);
    if i == |s| then None
    else
      var rest := s[i + 1..];
      Some(rest[..FirstSpace(rest)])
  }

  /** `authHeader && authHeader.split(' ')[1]`, with a falsy result (a
      missing header, no space, or an empty second field) as None. */
  function ExtractToken(header: Option<string>): (t: Option<string>)
    ensures t.Some? ==> header.Some? && t.value != "" && ' ' !in t.value
    ensures header.None? || ' ' !in header.value ==> t.None?
    ensures t.Some? ==> SecondField(header.value) == t
    ensures header.Some? && SecondField(header.value).Some? ==>
              (t.None? <==> SecondField(header.value).value == "")
  {
    if !Truthy(header) then None
    else match SecondField(header.value)
      case None => None
      case Some(f) => if f == "" then None else Some(f)
  }

  lemma FirstSpaceAfterWord(a: string, rest: string)
    requires ' ' !in a
    requires rest == [] || rest[0] == ' '
    ensures FirstSpace(a + rest) == |a|
  {
    var s := a + rest;
    assert forall j :: 0 <= j < |a| ==> s[j] == a[j];
    if |a| < |s| {
      assert s[|a|] == ' ';
    }
  }

  /** Element 1 of `split(' ')` is the text between the first space and the
      next one (or the end): every header with a space has this form, with
      `first` and `field` space-free and `rest` empty or starting with a
      space, and the field is then exactly `field`. */
  lemma {:induction false} SecondFieldOf(first: string, field: string, rest: string)
    requires ' ' !in first && ' ' !in field
    requires rest == [] || rest[0] == ' '
    ensures SecondField(first + " " + field + rest) == Some(field)
  {
    var h := first + " " + field + rest;
    FirstSpaceAfterWord(first, " " + field + rest);
    assert h == first + (" " + field + rest);
    var after := h[|first| + 1..];
    assert after == field + rest;
    FirstSpaceAfterWord(field, rest);
    assert after[..|field|] == field;
  }

  /** The token is the second space-separated word whatever the first word
      is and whatever follows it: the scheme is never checked, extra words
      are ignored, and an empty second field (as in `Bearer ` or
      `Bearer  tok`) yields no token. */
  lemma TokenExtraction(scheme: string, token: string, rest: string)
    requires ' ' !in scheme && ' ' !in token
    requires rest == [] || rest[0] == ' '
    ensures ExtractToken(Some(scheme + " " + token + rest)) == (if token == "" then None else Some(token))
  {
    SecondFieldOf(scheme, token, rest);
  }

  // ---------------------------------------------------------------------
  // authenticateToken
  // ---------------------------------------------------------------------

  /** authenticateToken: 401 without a token, 403 for a token the verifier
      rejects, otherwise `req.user` is the decoded payload and `next` runs. */
  function Authenticate(header: Option<string>, verify: Verifier): (g: Gate)
    ensures ExtractToken(header).None? ==> g == Deny(Reject(401, "Access token required"))
    ensures g.Allow? <==> ExtractToken(header).Some? && verify(ExtractToken(header).value).Some?
    ensures g.Allow? ==> verify(ExtractToken(header).value) == Some(g.user)
    ensures g.Deny? && ExtractToken(header).Some? ==> g == Deny(Reject(403, "Invalid or expired token"))
  {
    match ExtractToken(header)
    case None => Deny(Reject(401, "Access token required"))
    case Some(token) =>
      match verify(token)
      case None => Deny(Reject(403, "Invalid or expired token"))
      case Some(user) => Allow(user)
  }

  // ---------------------------------------------------------------------
  // authorize(...roles) and its three instances
  // ---------------------------------------------------------------------

  /** authorize(...roles): 401 when no earlier middleware set `req.user`;
      otherwise the request goes on exactly when the user's role is listed,
      and a refusal carries the listed roles and the actual one. */
  function Authorize(roles: seq<Role>, user: Option<Claims>): (g: Gate)
    ensures user.None? ==> g == Deny(Reject(401, "Authentication required"))
    ensures user.Some? ==> (g.Allow? <==> user.value.role in roles)
    ensures g.Allow? ==> user == Some(g.user)
    ensures user.Some? && g.Deny? ==> g.denial == Insufficient(roles, user.value.role)
  {
    match user
    case None => Deny(Reject(401, "Authentication required"))
    case Some(u) =>
      if u.role in roles then Allow(u) else Deny(Insufficient(roles, u.role))
  }

  const AdminOrStaff: seq<Role> := [Admin, Staff]
  const AdminOnly: seq<Role> := [Admin]
  const StudentOnly: seq<Role> := [Student]

  function IsAdminOrStaff(user: Option<Claims>): Gate {
    Authorize(AdminOrStaff, user)
  }

  function IsAdmin(user: Option<Claims>): Gate {
    Authorize(AdminOnly, user)
  }

  function IsStudent(user: Option<Claims>): Gate {
    Authorize(StudentOnly, user)
  }

  /** Who each ready-made guard admits, and that isAdmin is the stricter of
      the two staff guards. */
  lemma RoleGuards(c: Claims)
    ensures IsAdminOrStaff(Some(c)).Allow? <==> c.role == Admin || c.role == Staff
    ensures IsAdmin(Some(c)).Allow? <==> c.role == Admin
    ensures IsStudent(Some(c)).Allow? <==> c.role == Student
    ensures IsAdmin(Some(c)).Allow? ==> IsAdminOrStaff(Some(c)).Allow?
    ensures IsAdminOrStaff(Some(c)).Allow? != IsStudent(Some(c)).Allow?
  {
  }
}
