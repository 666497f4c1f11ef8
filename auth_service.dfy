/**
 * AuthService: login against the stored bcrypt hash and the issuing of an
 * access token, and registration through UserService.create. Signing is the
 * configured `Signer` (JwtService.signAsync under the service's secret).
 */
module AuthService {
  import opened Wrappers
  import opened Domain
  import opened RegisterDtos
  import opened UserRepo
  import opened UserService
  import opened JwtStrategy

  /** ConfigService.getOrThrow's message for a key that is not set. */
  function MissingKey(key: string): string {
    "Configuration key \"" + key + "\" does not exist"
  }

  /** The two settings the constructor reads. */
  datatype AuthConfig = AuthConfig(jwtSecret: string, expiresIn: string)

  /** The constructor: both JWT_SECRET and JWT_EXPIRES_IN must be set; getOrThrow accepts any value that is defined. */
  function ReadAuthConfig(secret: Option<string>, expiresIn: Option<string>): (r: Result<AuthConfig, Error>)
    ensures r.Success? <==> secret.Some? && expiresIn.Some?
    ensures r.Success? ==> r.value == AuthConfig(secret.value, expiresIn.value)
    ensures secret.None? ==> r == Failure(Crash(MissingKey("JWT_SECRET")))
    ensures secret.Some? && expiresIn.None? ==> r == Failure(Crash(MissingKey("JWT_EXPIRES_IN")))
  {
    if secret.None? then Failure(Crash(MissingKey("JWT_SECRET")))
    else if expiresIn.None? then Failure(Crash(MissingKey("JWT_EXPIRES_IN")))
    else Success(AuthConfig(secret.value, expiresIn.value))
  }

  /** The claims signed into a token. */
  datatype Payload = Payload(sub: string, email: string, role: string)

  /** `jwtService.signAsync(payload, { expiresIn, secret })`. */
  type Signer = (Payload, string, string) -> string

  /** createJwtPayload: subject, email and the role's string value of the user. */
  function CreateJwtPayload(u: User): (p: Payload)
    ensures p.sub == u.id && p.email == u.email && ParseRole(p.role) == Some(u.role)
  {
    Payload(u.id, u.email, RoleName(u.role))
  }

  /** The payload as JwtStrategy.validate later receives it from a verified token. */
  function AsReceived(p: Payload): (q: JwtPayload)
    ensures q.sub == Some(p.sub) && q.email == Some(p.email) && q.role == Some(p.role)
  {
    JwtPayload(Some(p.sub), Some(p.email), Some(p.role))
  }

  datatype LoginDto = LoginDto(email: string, password: string, rememberMe: bool)

  /** LoginPresenter. */
  datatype LoginResult = LoginResult(user: UserView, accessToken: string, expiresIn: string)

  const DEFAULT_EXPIRY := "1d"
  const INVALID_CREDENTIALS := "Invalid email or password"
  const REGISTRATION_FAILED := "Registration failed"

  /** The lifetime a login asks for: the configured one only when the client asks to be remembered. */
  function ExpiryFor(cfg: AuthConfig, rememberMe: bool): (e: string)
    ensures rememberMe ==> e == cfg.expiresIn
    ensures !rememberMe ==> e == DEFAULT_EXPIRY
  {
    if rememberMe then cfg.expiresIn else DEFAULT_EXPIRY
  }

  /**
   * login: the user by exact email (password selected), bcrypt.compare, then a
   * token for the user's payload and the presenter of the user. A row without
   * a password makes bcrypt.compare throw.
   */
  function Login(rows: seq<User>, dto: LoginDto, cfg: AuthConfig, digest: Digest, sign: Signer): (r: Result<LoginResult, Error>)
  {
    var user := UserRepo.FindOneByEmail(rows, dto.email);
    if user.None? then Failure(Unauthorized(INVALID_CREDENTIALS))
    else if user.value.password.None? then Failure(Crash(BCRYPT_MISSING_ARGUMENT))
    else if !Compare(digest, dto.password, user.value.password.value) then Failure(Unauthorized(INVALID_CREDENTIALS))
    else
      var expiresIn := ExpiryFor(cfg, dto.rememberMe);
      var token := sign(CreateJwtPayload(user.value), expiresIn, cfg.jwtSecret);
      Success(LoginResult(Present(user.value), token, expiresIn))
  }

  /**
   * On a valid table login succeeds exactly for a live row with that email
   * whose hash is bcrypt's of the password; both ways of failing are the same
   * Unauthorized, so a caller cannot tell an unknown email from a wrong password.
   */
  lemma LoginSucceedsIffCredentialsMatch(rows: seq<User>, dto: LoginDto, cfg: AuthConfig, digest: Digest, sign: Signer)
    requires RowsValid(rows)
    ensures Login(rows, dto, cfg, digest, sign).Success? <==>
      exists i | 0 <= i < |rows| :: rows[i].email == dto.email && Live(rows[i]) && rows[i].password == Some(digest(dto.password))
    ensures Login(rows, dto, cfg, digest, sign).Failure? ==>
      Login(rows, dto, cfg, digest, sign).error == Unauthorized(INVALID_CREDENTIALS)
  {
    var user := UserRepo.FindOneByEmail(rows, dto.email);
    if user.Some? {
      var k :| 0 <= k < |rows| && rows[k] == user.value;
      FoundByEmailIsTheRow(rows, dto.email, k);
      forall i | 0 <= i < |rows| && rows[i].email == dto.email && Live(rows[i])
        ensures rows[i] == user.value
      {
        FoundByEmailIsTheRow(rows, dto.email, i);
      }
    }
  }

  /**
   * A live row holding the email but stored without a hash (which the NOT
   * NULL column keeps out of a real table) makes bcrypt.compare throw: the
   * login is a 500, not the 401 of a wrong password.
   */
  lemma LoginWithoutStoredHashCrashes(rows: seq<User>, dto: LoginDto, cfg: AuthConfig, digest: Digest, sign: Signer, i: int)
    requires 0 <= i < |rows| && rows[i].email == dto.email && Live(rows[i]) && rows[i].password.None?
    requires forall k | 0 <= k < |rows| && k != i :: rows[k].email != dto.email
    ensures Login(rows, dto, cfg, digest, sign) == Failure(Crash(BCRYPT_MISSING_ARGUMENT))
  {
    var found := UserRepo.FindOneByEmail(rows, dto.email);
    var k :| 0 <= k < |rows| && rows[k] == found.value;
    assert k == i;
  }

  /**
   * A successful login signs the user's payload with the chosen lifetime under
   * the configured secret, reports that same lifetime, and returns only the
   * presenter fields of the user.
   */
  lemma LoginIssuesTheUsersToken(rows: seq<User>, dto: LoginDto, cfg: AuthConfig, digest: Digest, sign: Signer)
    requires Login(rows, dto, cfg, digest, sign).Success?
    ensures var r := Login(rows, dto, cfg, digest, sign).value;
      var u := UserRepo.FindOneByEmail(rows, dto.email).value;
      r.expiresIn == (if dto.rememberMe then cfg.expiresIn else DEFAULT_EXPIRY) &&
      r.accessToken == sign(Payload(u.id, u.email, RoleName(u.role)), r.expiresIn, cfg.jwtSecret) &&
      r.user == UserView(u.id, u.name, u.email, u.role)
  {
  }

  /**
   * While the user is stored (and the cache agrees with the table), the
   * payload a login signs passes JwtStrategy.validate, which yields the user's
   * id, email and role name.
   */
  lemma IssuedPayloadValidates(cs: CacheState, rows: seq<User>, u: User, cfg: Config)
    requires WellTyped(cs.entries) && Coherent(cs.entries, rows)
    requires u in rows && Live(u) && u.id != "" && u.email != ""
    ensures Validate(cs, rows, AsReceived(CreateJwtPayload(u)), true, cfg).result == Success(AuthUser(u.id, u.email, RoleName(u.role)))
  {
    var k :| 0 <= k < |rows| && rows[k] == u;
    ValidateTrustsTheToken(cs, rows, AsReceived(CreateJwtPayload(u)), cfg);
  }

  /** register: UserService.create of the DTO; every error it raises is replaced by one BadRequest. */
  function Register(cs: CacheState, rows: seq<User>, dto: RegisterDto, up: bool, cfg: Config, newId: string, now: int)
    : (w: Write<Result<User, Error>>)
    requires WellTyped(cs.entries)
  {
    var created := CreateStep(cs, rows, AsCreateUserDto(dto), up, cfg, newId, now);
    if created.result.Failure? then Write(Failure(BadRequest(REGISTRATION_FAILED)), created.cache, created.rows)
    else created
  }

  /**
   * Registration either fails with "Registration failed" (400) and leaves the
   * table as it was, or creates exactly what create would, and then always a
   * plain USER.
   */
  lemma RegisterOutcome(cs: CacheState, rows: seq<User>, dto: RegisterDto, up: bool, cfg: Config, newId: string, now: int)
    requires WellTyped(cs.entries)
    ensures var w := Register(cs, rows, dto, up, cfg, newId, now);
      var c := CreateStep(cs, rows, AsCreateUserDto(dto), up, cfg, newId, now);
      (w.result.Failure? <==> c.result.Failure?) &&
      (w.result.Failure? ==> w.result.error == BadRequest(REGISTRATION_FAILED) && w.rows == rows) &&
      (w.result.Success? ==> w == c && w.result.value.role == USER)
  {
  }

  /** An email that is already taken is reported as the same BadRequest as every other failure, not as Conflict. */
  lemma RegisterHidesTheConflict(cs: CacheState, rows: seq<User>, dto: RegisterDto, up: bool, cfg: Config, newId: string, now: int)
    requires WellTyped(cs.entries) && UserRepo.FindOneByEmail(rows, dto.email).Some?
    ensures Register(cs, rows, dto, up, cfg, newId, now).result == Failure(BadRequest(REGISTRATION_FAILED))
    ensures CreateStep(cs, rows, AsCreateUserDto(dto), up, cfg, newId, now).result
      == Failure(Conflict("User with email " + dto.email + " already exists"))
  {
    CreateConflictsOnHeldEmail(cs, rows, AsCreateUserDto(dto), up, cfg, newId, now);
  }
}
