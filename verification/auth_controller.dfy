/** The authentication service of backend/controllers/authController.js:
    registration, login and the profile lookup, over the users table of the
    store. bcrypt and jsonwebtoken are passed in as functions. */
module AuthController {
  import opened Common
  import opened Store
  import opened AuthGate
  import ErrorHandler

  const SaltRounds: nat := 10
  const DefaultExpiry := "24h"

  /** bcrypt: `hash(password, rounds, salt)`, where the salt stands for the
      randomness bcrypt draws itself, and `compare(password, digest)`. */
  datatype Hasher = Hasher(hash: (string, nat, nat) -> string, compare: (string, string) -> bool)

  /** `jwt.sign(payload, JWT_SECRET, { expiresIn })`, with the secret inside. */
  type Signer = (Claims, string) -> string

  /** The signer and the value of JWT_EXPIRES_IN (None when unset). */
  datatype TokenConfig = TokenConfig(sign: Signer, expiresEnv: Option<string>)

  /** Signer and verifier share the secret: every token the signer makes is a
      non-empty, space-free string that, within its expiry window, verifies
      to the claims it was made from. */
  ghost predicate Paired(cfg: TokenConfig, verify: Verifier) {
    forall c, e :: cfg.sign(c, e) != "" && ' ' !in cfg.sign(c, e) && verify(cfg.sign(c, e)) == Some(c)
  }

  /** The claims of a stored user: its id, email and role, nothing else. */
  function TokenClaims(id: nat, u: User): Claims {
    Claims(id, u.email, u.role)
  }

  /** generateToken: sign the user's claims, expiring after JWT_EXPIRES_IN or '24h'. */
  function GenerateToken(id: nat, u: User, cfg: TokenConfig): string {
    cfg.sign(TokenClaims(id, u), OrElse(cfg.expiresEnv, DefaultExpiry))
  }

  /** A token from generateToken, sent back as `Bearer ${token}`, passes
      authenticateToken with `req.user` set to exactly the user's id, email
      and role. */
  lemma IssuedTokenAuthenticates(id: nat, u: User, cfg: TokenConfig, verify: Verifier)
    requires Paired(cfg, verify)
    ensures Authenticate(Some("Bearer " + GenerateToken(id, u, cfg)), verify) == Allow(Claims(id, u.email, u.role))
  {
    var token := GenerateToken(id, u, cfg);
    assert token != "" && ' ' !in token && verify(token) == Some(TokenClaims(id, u));
    TokenExtraction("Bearer", token, []);
    assert "Bearer" + " " + token + [] == "Bearer " + token;
  }

  /** The user fields a reply may carry; there is no room for the hash. */
  datatype PublicUser = PublicUser(userId: nat, name: string, email: string, role: Role)

  function Public(id: nat, u: User): PublicUser {
    PublicUser(id, u.name, u.email, u.role)
  }

  /** The body of a successful register or login. */
  datatype Session = Session(user: PublicUser, token: string)

  // ---------------------------------------------------------------------
  // register
  // ---------------------------------------------------------------------

  datatype RegisterBody = RegisterBody(name: Option<string>, email: Option<string>, password: Option<string>, role: Option<string>)

  /** A registration that passed validation, with its role settled. */
  datatype Registration = Registration(name: string, email: string, password: string, role: Role)

  /** The checks of register before anything is hashed or stored: the three
      required fields first, then the role, which defaults to 'student'
      when falsy and must otherwise be one of the three role names. */
  function ValidateRegistration(b: RegisterBody): (v: Verdict<Registration>)
    ensures !Truthy(b.name) || !Truthy(b.email) || !Truthy(b.password) ==>
              v == Fail(400, "Name, email, and password are required")
    ensures v.Pass? <==>
              Truthy(b.name) && Truthy(b.email) && Truthy(b.password) &&
              OrElse(b.role, "student") in RoleNames
    ensures v.Fail? && Truthy(b.name) && Truthy(b.email) && Truthy(b.password) ==>
              v == Fail(400, "Invalid role")
    ensures v.Pass? ==>
              v.value.name == b.name.value && v.value.email == b.email.value &&
              v.value.password == b.password.value &&
              RoleName(v.value.role) == OrElse(b.role, "student")
    ensures v.Pass? && !Truthy(b.role) ==> v.value.role == Student
  {
    if !Truthy(b.name) || !Truthy(b.email) || !Truthy(b.password) then
      Fail(400, "Name, email, and password are required")
    else
      match ParseRole(OrElse(b.role, "student"))
      case None => Fail(400, "Invalid role")
      case Some(role) => Pass(Registration(b.name.value, b.email.value, b.password.value, role))
  }

  /** register: validate, hash with 10 salt rounds, insert once, and answer
      201 with the public fields and a token. A taken email surfaces as the
      store's unique violation, which errorHandler turns into a 409. Every
      refusal leaves the store as it was. */
  method Register(db: Database, body: RegisterBody, hasher: Hasher, salt: nat, now: nat, cfg: TokenConfig)
    returns (reply: Reply<Session>)
    requires db.Valid()
    modifies db`users, db`emailIndex, db`nextUserId
    ensures db.Valid()
    ensures ValidateRegistration(body).Fail? ==>
              reply == Failure(400, ValidateRegistration(body).error) && unchanged(db)
    ensures ValidateRegistration(body).Pass? && body.email.value in old(db.emailIndex) ==>
              reply == Failure(409, "Duplicate entry") && unchanged(db)
    ensures reply.Success? <==>
              ValidateRegistration(body).Pass? && body.email.value !in old(db.emailIndex)
    ensures reply.Success? ==>
              var reg := ValidateRegistration(body).value;
              var id := old(db.nextUserId);
              var u := User(reg.name, reg.email, hasher.hash(reg.password, SaltRounds, salt), reg.role, now);
              id !in old(db.users) && db.users == old(db.users)[id := u] &&
              reply == Success(201, Session(Public(id, u), GenerateToken(id, u, cfg)))
  {
    var v := ValidateRegistration(body);
    if v.Fail? {
      return Failure(v.status, v.error);
    }
    var reg := v.value;
    var passwordHash := hasher.hash(reg.password, SaltRounds, salt);
    var u := User(reg.name, reg.email, passwordHash, reg.role, now);
    var inserted := db.InsertUser(u);
    match inserted
    case Violation(code) =>
      var r := ErrorHandler.HandleError(ErrorHandler.DbError(code));
      reply := Failure(r.status, r.error);
    case Inserted(id) =>
      reply := Success(201, Session(Public(id, u), GenerateToken(id, u, cfg)));
  }

  // ---------------------------------------------------------------------
  // login
  // ---------------------------------------------------------------------

  datatype LoginBody = LoginBody(email: Option<string>, password: Option<string>)

  /** The one reply for an unknown email and for a wrong password alike. */
  const InvalidCredentials: Reply<Session> := Failure(401, "Invalid email or password")

  /** login: one lookup by email and no write (the method modifies nothing).
      It succeeds exactly when the email is registered and the password
      matches the stored hash; every other failure after validation is the
      same generic 401. */
  method Login(db: Database, body: LoginBody, hasher: Hasher, cfg: TokenConfig) returns (reply: Reply<Session>)
    requires db.Valid()
    ensures !Truthy(body.email) || !Truthy(body.password) ==>
              reply == Failure(400, "Email and password are required")
    ensures reply.Success? <==>
              Truthy(body.email) && Truthy(body.password) && body.email.value in db.emailIndex &&
              hasher.compare(body.password.value, db.users[db.emailIndex[body.email.value]].passwordHash)
    ensures reply.Failure? && Truthy(body.email) && Truthy(body.password) ==> reply == InvalidCredentials
    ensures reply.Success? ==>
              var id := db.emailIndex[body.email.value];
              reply == Success(200, Session(Public(id, db.users[id]), GenerateToken(id, db.users[id], cfg)))
  {
    if !Truthy(body.email) || !Truthy(body.password) {
      return Failure(400, "Email and password are required");
    }
    var found := db.UserByEmail(body.email.value);
    if found.None? {
      return InvalidCredentials;
    }
    var id := found.value;
    var user := db.users[id];
    var isValidPassword := hasher.compare(body.password.value, user.passwordHash);
    if !isValidPassword {
      return InvalidCredentials;
    }
    reply := Success(200, Session(Public(id, user), GenerateToken(id, user, cfg)));
  }

  // ---------------------------------------------------------------------
  // getProfile
  // ---------------------------------------------------------------------

  /** The profile row: the stored user without its hash. */
  datatype Profile = Profile(userId: nat, name: string, email: string, role: Role, createdAt: nat)

  /** getProfile: the stored row for the id in the verified claims, or 404
      when no user has that id any more. Only the id is read from the claims;
      the reply shows the stored name, email and role. */
  method GetProfile(db: Database, caller: Claims) returns (reply: Reply<Profile>)
    ensures reply.Success? <==> caller.userId in db.users
    ensures reply.Failure? ==> reply == Failure(404, "User not found")
    ensures reply.Success? ==>
              var u := db.users[caller.userId];
              reply == Success(200, Profile(caller.userId, u.name, u.email, u.role, u.createdAt))
  {
    if caller.userId !in db.users {
      return Failure(404, "User not found");
    }
    var u := db.users[caller.userId];
    reply := Success(200, Profile(caller.userId, u.name, u.email, u.role, u.createdAt));
  }
}
