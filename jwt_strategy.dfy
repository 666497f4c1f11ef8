/**
 * JwtStrategy: the passport strategy behind JwtAuthGuard. Token signature and
 * expiry checks are passport-jwt's; what the strategy adds is the secret check
 * at construction and `validate`, which turns a verified payload into the
 * request's identity after looking the subject up through UserService.findOne.
 */
module JwtStrategy {
  import opened Wrappers
  import opened Domain
  import opened BaseFilter
  import opened UserRepo
  import opened UserService

  const SECRET_MISSING := "JWT_SECRET is not defined in the environment variables"
  const INVALID_PAYLOAD := "Invalid token payload"

  /** The payload of a token that passed verification; a claim the token lacks is `None`. */
  datatype JwtPayload = JwtPayload(sub: Option<string>, email: Option<string>, role: Option<string>)

  /** The constructor: a missing or empty JWT_SECRET throws, anything else becomes the verification key. */
  function StrategySecret(secret: Option<string>): (r: Result<string, Error>)
    ensures r.Success? <==> Truthy(secret)
    ensures r.Success? ==> r.value == secret.value
    ensures r.Failure? ==> r.error == Crash(SECRET_MISSING)
  {
    if !Truthy(secret) then Failure(Crash(SECRET_MISSING)) else Success(secret.value)
  }

  /** Every claim `validate` insists on is present and non-empty. */
  predicate PayloadComplete(p: JwtPayload) {
    Truthy(p.sub) && Truthy(p.email) && Truthy(p.role)
  }

  /**
   * validate: Unauthorized for an incomplete payload; otherwise findOne of the
   * subject, whose errors (NotFound, a failing cache) propagate; the identity
   * is built from the payload's claims.
   */
  function Validate(cs: CacheState, rows: seq<User>, p: JwtPayload, up: bool, cfg: Config)
    : (s: Step<Result<AuthUser, Error>>)
    requires WellTyped(cs.entries)
    ensures WellTyped(s.cache.entries)
    ensures !PayloadComplete(p) ==> s == Step(Failure(Unauthorized(INVALID_PAYLOAD)), cs)
    ensures s.result.Success? ==>
      PayloadComplete(p) && s.result.value == AuthUser(p.sub.value, p.email.value, p.role.value)
  {
    if !PayloadComplete(p) then Step(Failure(Unauthorized(INVALID_PAYLOAD)), cs)
    else
      var found := FindOneStep(cs, rows, p.sub.value, up, cfg);
      ReadsKeepWellTyped(cs, rows, p.sub.value, "", Filter(None, false, None, None, None, None), up, cfg);
      if found.result.Failure? then Step(Failure(found.result.error), found.cache)
      else Step(Success(AuthUser(p.sub.value, p.email.value, p.role.value)), found.cache)
  }

  /** A complete payload is accepted exactly when findOne of its subject succeeds, and fails with findOne's error. */
  lemma ValidateIsTheSubjectLookup(cs: CacheState, rows: seq<User>, p: JwtPayload, up: bool, cfg: Config)
    requires WellTyped(cs.entries) && PayloadComplete(p)
    ensures var s := Validate(cs, rows, p, up, cfg);
      var f := FindOneStep(cs, rows, p.sub.value, up, cfg);
      s.cache == f.cache && (s.result.Success? <==> f.result.Success?) &&
      (s.result.Failure? ==> s.result.error == f.result.error)
  {
  }

  /**
   * On a coherent cache a subject with no live row is refused, and with
   * findOne's NotFound (404) rather than an Unauthorized.
   */
  lemma UnknownSubjectIsNotFound(cs: CacheState, rows: seq<User>, p: JwtPayload, cfg: Config)
    requires WellTyped(cs.entries) && Coherent(cs.entries, rows) && PayloadComplete(p)
    requires UserRepo.FindOne(rows, p.sub.value).None?
    ensures Validate(cs, rows, p, true, cfg).result == Failure(NotFound("User with id " + p.sub.value + " not found"))
    ensures StatusOf(Validate(cs, rows, p, true, cfg).result.error) == NOT_FOUND
  {
    CoherentFindOneAgreesWithRepo(cs, rows, p.sub.value, cfg);
  }

  /**
   * For a stored subject the identity carries the token's email and role, not
   * the stored ones: a role changed after the token was issued is not seen.
   */
  lemma ValidateTrustsTheToken(cs: CacheState, rows: seq<User>, p: JwtPayload, cfg: Config)
    requires WellTyped(cs.entries) && Coherent(cs.entries, rows) && PayloadComplete(p)
    requires UserRepo.FindOne(rows, p.sub.value).Some?
    ensures Validate(cs, rows, p, true, cfg).result == Success(AuthUser(p.sub.value, p.email.value, p.role.value))
  {
    CoherentFindOneAgreesWithRepo(cs, rows, p.sub.value, cfg);
  }

  /**
   * A user removed while the cache store was down keeps authenticating: once
   * the store answers again, findOne serves the stale cached presenter.
   */
  lemma RemovedUserStillAuthenticates(cs: CacheState, rows: seq<User>, p: JwtPayload, cfg: Config)
    requires WellTyped(cs.entries) && Coherent(cs.entries, rows) && PayloadComplete(p)
    requires IdKey(p.sub.value) in cs.entries
    ensures var w := RemoveStep(cs, rows, p.sub.value, false);
      w.result.Success? && UserRepo.FindOne(w.rows, p.sub.value).None? &&
      Validate(w.cache, w.rows, p, true, cfg).result.Success?
  {
    RemoveWhileStoreDownLeavesStaleEntry(cs, rows, p.sub.value, cfg);
  }

  /** Validating the same payload again right after a success succeeds and changes nothing more (GET /user/:id runs the guard twice). */
  lemma ValidateIsRepeatable(cs: CacheState, rows: seq<User>, p: JwtPayload, up: bool, cfg: Config)
    requires WellTyped(cs.entries) && Validate(cs, rows, p, up, cfg).result.Success?
    ensures var v := Validate(cs, rows, p, up, cfg);
      Validate(v.cache, rows, p, up, cfg) == v
  {
    FindOneIsRepeatable(cs, rows, p.sub.value, up, cfg);
  }
}
