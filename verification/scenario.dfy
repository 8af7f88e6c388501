/** One student's first session against a fresh store, end to end:
    registration, an attempt at an admin-only catalogue write with the
    issued token, and two logins. It ties the auth service, the gate and
    the catalogue's guard table together. */
module Scenario {
  import opened Common
  import opened Store
  import opened AuthGate
  import opened AuthController
  import opened Routes

  /** A signed-in student who tries POST /api/departments is stopped by
      isAdmin with its 403, naming the admin role as required. */
  lemma StudentCannotCreateDepartment(c: Claims)
    requires c.role == Student
    ensures Handle(ServiceRouter, Post, ["departments"], Allow(c)) == Halted(Insufficient(AdminOnly, Student))
  {
    ServiceDispatch(Post, ["departments"]);
    ServiceAccess(Post, ["departments"], Allow(c));
  }

  /** A new student registers (no role given), then sends the issued token
      as `Bearer <token>` to POST /api/departments, then logs in with a
      wrong and with the right password. Of bcrypt only two answers are
      assumed: the stored digest matches the password it was made from and
      does not match the guess (a guess that shares the password's first 72
      bytes would match); the JWT pair shares its secret. Then registration
      succeeds with role student; the token authenticates as that student and the admin-only route refuses
      it with isAdmin's 403; the wrong password gets the generic 401; the
      right one a session for the same user, whose token authenticates as
      that student again. */
  method FirstSession(name: string, email: string, password: string, guess: string,
                      hasher: Hasher, salt: nat, now: nat, cfg: TokenConfig, verify: Verifier)
    returns (registered: Reply<Session>, attempt: Outcome, wrong: Reply<Session>, right: Reply<Session>)
    requires name != "" && email != "" && password != "" && guess != ""
    requires hasher.compare(password, hasher.hash(password, SaltRounds, salt))
    requires !hasher.compare(guess, hasher.hash(password, SaltRounds, salt))
    requires Paired(cfg, verify)
    ensures registered.Success? && registered.status == 201
    ensures registered.payload.user == PublicUser(1, name, email, Student)
    ensures attempt == Halted(Insufficient(AdminOnly, Student))
    ensures wrong == InvalidCredentials
    ensures right.Success? && right.payload.user == registered.payload.user
    ensures Authenticate(Some("Bearer " + right.payload.token), verify) == Allow(Claims(1, email, Student))
  {
    var db := new Database();
    var body := RegisterBody(Some(name), Some(email), Some(password), None);
    assert ValidateRegistration(body) == Pass(Registration(name, email, password, Student));
    registered := Register(db, body, hasher, salt, now, cfg);
    var u := User(name, email, hasher.hash(password, SaltRounds, salt), Student, now);
    assert db.users == map[1 := u];
    assert db.emailIndex[email] == 1;

    IssuedTokenAuthenticates(1, u, cfg, verify);
    var gate := Authenticate(Some("Bearer " + registered.payload.token), verify);
    assert gate == Allow(Claims(1, email, Student));
    StudentCannotCreateDepartment(Claims(1, email, Student));
    attempt := Handle(ServiceRouter, Post, ["departments"], gate);

    wrong := Login(db, LoginBody(Some(email), Some(guess)), hasher, cfg);
    right := Login(db, LoginBody(Some(email), Some(password)), hasher, cfg);
    IssuedTokenAuthenticates(1, u, cfg, verify);
  }
}
