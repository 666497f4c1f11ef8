/**
 * UserController under the Nest request pipeline: the guards (JwtAuthGuard on
 * the class, then the route's own guards), the pipes (ParseUUIDPipe on `:id`,
 * then the global ValidationPipe on the body or query), the handler, and the
 * route's interceptor. A request ends in a response or in the error that
 * stopped it; its HTTP status is the response's `statusCode` or StatusOf the
 * error.
 */
module UserController {
  import opened Wrappers
  import opened Domain
  import opened ClassValidator
  import opened UserDtos
  import opened BaseFilter
  import opened UserRepo
  import opened UserService
  import opened RolesGuard
  import opened JwtStrategy
  import opened BaseController
  import opened Interceptors

  datatype Route = CreateUser | ListUsers | UploadPhoto | GetUser | UpdateUser | DeleteUser

  datatype Guard = JwtAuth | Roles

  const UNAUTHORIZED_MESSAGE := "Unauthorized"
  const FORBIDDEN_MESSAGE := "Forbidden resource"
  const UUID_EXPECTED := "Validation failed (uuid is expected)"

  /** The guards in the order Nest runs them: the class's JwtAuthGuard, then the method's `@UseGuards`. */
  function GuardsOf(route: Route): seq<Guard> {
    if route == GetUser then [JwtAuth, JwtAuth] else [JwtAuth, Roles]
  }

  /** The route's `@Roles(...)` metadata; `None` where the handler has none. */
  function RequiredRoles(route: Route): Option<seq<Role>> {
    match route
    case ListUsers => Some([ADMIN, SUPERADMIN])
    case UpdateUser => Some([ADMIN, SUPERADMIN])
    case DeleteUser => Some([SUPERADMIN])
    case _ => None
  }

  /**
   * Who the routes are meant for, read off the decorators: listing and
   * updating for administrators, deleting for superadministrators, the rest
   * for any authenticated identity.
   */
  predicate RouteAdmits(route: Route, role: string) {
    match route
    case ListUsers => role == "admin" || role == "superadmin"
    case UpdateUser => role == "admin" || role == "superadmin"
    case DeleteUser => role == "superadmin"
    case _ => true
  }

  /** `request.user` as set by JwtAuthGuard: the identity validate returned, which has no `roles` field. */
  function AsRequestUser(user: Option<AuthUser>): (r: Option<RequestUser>)
    ensures r.Some? <==> user.Some?
    ensures user.Some? ==> r.value.role == Some(user.value.role) && r.value.roles.None?
  {
    if user.None? then None else Some(RequestUser(Some(user.value.role), None))
  }

  /**
   * Runs the guards one after the other. JwtAuthGuard refuses a request
   * without a verified token with 401 and otherwise lets validate's own error
   * through; RolesGuard answering false is a 403.
   */
  function RunGuards(gs: seq<Guard>, required: Option<seq<Role>>, cs: CacheState, rows: seq<User>,
                     token: Option<JwtPayload>, up: bool, cfg: Config, user: Option<AuthUser>)
    : (s: Step<Result<Option<AuthUser>, Error>>)
    requires WellTyped(cs.entries)
    ensures WellTyped(s.cache.entries)
    ensures s.result.Success? ==> (s.result.value.Some? <==> user.Some? || JwtAuth in gs)
    decreases |gs|
  {
    if gs == [] then Step(Success(user), cs)
    else match gs[0]
      case JwtAuth =>
        if token.None? then Step(Failure(Unauthorized(UNAUTHORIZED_MESSAGE)), cs)
        else
          var v := Validate(cs, rows, token.value, up, cfg);
          if v.result.Failure? then Step(Failure(v.result.error), v.cache)
          else RunGuards(gs[1..], required, v.cache, rows, token, up, cfg, Some(v.result.value))
      case Roles =>
        if !CanActivate(required, AsRequestUser(user)) then Step(Failure(Forbidden(FORBIDDEN_MESSAGE)), cs)
        else RunGuards(gs[1..], required, cs, rows, token, up, cfg, user)
  }

  /** The guards of `route` on a request carrying `token`. */
  function Guarded(route: Route, cs: CacheState, rows: seq<User>, token: Option<JwtPayload>, up: bool, cfg: Config)
    : (s: Step<Result<Option<AuthUser>, Error>>)
    requires WellTyped(cs.entries)
    ensures WellTyped(s.cache.entries)
    ensures s.result.Success? ==> s.result.value.Some?
  {
    RunGuards(GuardsOf(route), RequiredRoles(route), cs, rows, token, up, cfg, None)
  }

  /**
   * Every route authenticates first: without a token it is a 401 and nothing
   * is touched; otherwise validate decides (its error and cache pass
   * through), and for a validated identity the route's roles decide between
   * going on as that identity and a 403. The second JwtAuthGuard of GET :id
   * repeats the first without effect.
   */
  lemma GuardOutcome(route: Route, cs: CacheState, rows: seq<User>, token: Option<JwtPayload>, up: bool, cfg: Config)
    requires WellTyped(cs.entries)
    ensures var g := Guarded(route, cs, rows, token, up, cfg);
      (token.None? ==> g == Step(Failure(Unauthorized(UNAUTHORIZED_MESSAGE)), cs)) &&
      (token.Some? ==>
        var v := Validate(cs, rows, token.value, up, cfg);
        (v.result.Failure? ==> g == Step(Failure(v.result.error), v.cache)) &&
        (v.result.Success? ==>
          g.cache == v.cache &&
          (g.result.Success? <==> CanActivate(RequiredRoles(route), AsRequestUser(Some(v.result.value)))) &&
          (g.result.Success? ==> g.result.value == Some(v.result.value)) &&
          (g.result.Failure? ==> g.result.error == Forbidden(FORBIDDEN_MESSAGE))))
  {
    var gs := GuardsOf(route);
    var req := RequiredRoles(route);
    if token.Some? {
      var v := Validate(cs, rows, token.value, up, cfg);
      if v.result.Success? {
        var rest := RunGuards(gs[1..], req, v.cache, rows, token, up, cfg, Some(v.result.value));
        assert Guarded(route, cs, rows, token, up, cfg) == rest;
        assert gs[1..][1..] == [];
        if route == GetUser {
          ValidateIsRepeatable(cs, rows, token.value, up, cfg);
          assert gs[1..] == [JwtAuth];
          assert Validate(v.cache, rows, token.value, up, cfg) == v;
          assert rest == RunGuards([], req, v.cache, rows, token, up, cfg, Some(v.result.value));
          assert rest == Step(Success(Some(v.result.value)), v.cache);
        } else {
          assert gs[1..] == [Roles];
          var user := Some(v.result.value);
          if CanActivate(req, AsRequestUser(user)) {
            assert rest == RunGuards([], req, v.cache, rows, token, up, cfg, user);
          } else {
            assert rest == Step(Failure(Forbidden(FORBIDDEN_MESSAGE)), v.cache);
          }
        }
      }
    }
  }

  /** With a single truthy role, RolesGuard on a route decides exactly what the decorators mean. */
  lemma RolesDecideAsDeclared(route: Route, role: string)
    requires role != ""
    ensures CanActivate(RequiredRoles(route), Some(RequestUser(Some(role), None))) <==> RouteAdmits(route, role)
  {
    var u := RequestUser(Some(role), None);
    assert EffectiveRoles(u) == [role];
    match RequiredRoles(route)
    case None =>
    case Some(req) =>
      assert SomeRequiredHeld(req, [role]) <==> exists i | 0 <= i < |req| :: RoleName(req[i]) in [role];
      if route == DeleteUser {
        assert SomeRequiredHeld(req, [role]) <==> RoleName(req[0]) in [role];
      } else {
        assert SomeRequiredHeld(req, [role]) <==> RoleName(req[0]) in [role] || RoleName(req[1]) in [role];
      }
  }

  /**
   * For a token whose subject is stored (and a cache that agrees with the
   * table), a route lets the request through exactly when the token's role is
   * one the route is meant for; the identity is the token's.
   */
  lemma RouteAdmission(route: Route, cs: CacheState, rows: seq<User>, p: JwtPayload, cfg: Config)
    requires WellTyped(cs.entries) && Coherent(cs.entries, rows) && PayloadComplete(p)
    requires UserRepo.FindOne(rows, p.sub.value).Some?
    ensures var g := Guarded(route, cs, rows, Some(p), true, cfg);
      (g.result.Success? <==> RouteAdmits(route, p.role.value)) &&
      (g.result.Success? ==> g.result.value == Some(AuthUser(p.sub.value, p.email.value, p.role.value))) &&
      (g.result.Failure? ==> g.result.error == Forbidden(FORBIDDEN_MESSAGE))
  {
    ValidateTrustsTheToken(cs, rows, p, cfg);
    GuardOutcome(route, cs, rows, Some(p), true, cfg);
    RolesDecideAsDeclared(route, p.role.value);
  }

  /** Whatever the cache holds, a request the guards let through carries a role the route is meant for. */
  lemma AdmittedRoleIsDeclared(route: Route, cs: CacheState, rows: seq<User>, token: Option<JwtPayload>, up: bool, cfg: Config)
    requires WellTyped(cs.entries)
    requires Guarded(route, cs, rows, token, up, cfg).result.Success?
    ensures token.Some? && PayloadComplete(token.value) && RouteAdmits(route, token.value.role.value)
  {
    GuardOutcome(route, cs, rows, token, up, cfg);
    RolesDecideAsDeclared(route, token.value.role.value);
  }

  /** The guards read the cache and never make it disagree with the table. */
  lemma {:induction false} GuardsKeepCoherent(gs: seq<Guard>, required: Option<seq<Role>>, cs: CacheState, rows: seq<User>,
                                              token: Option<JwtPayload>, up: bool, cfg: Config, user: Option<AuthUser>)
    requires WellTyped(cs.entries) && Coherent(cs.entries, rows)
    ensures Coherent(RunGuards(gs, required, cs, rows, token, up, cfg, user).cache.entries, rows)
    decreases |gs|
  {
    if gs != [] {
      if gs[0].JwtAuth? && token.Some? {
        var v := Validate(cs, rows, token.value, up, cfg);
        if PayloadComplete(token.value) {
          ReadsKeepCoherent(cs, rows, token.value.sub.value, "", Filter(None, false, None, None, None, None), up, cfg);
        }
        if v.result.Success? {
          GuardsKeepCoherent(gs[1..], required, v.cache, rows, token, up, cfg, Some(v.result.value));
        }
      } else if gs[0].Roles? && CanActivate(required, AsRequestUser(user)) {
        GuardsKeepCoherent(gs[1..], required, cs, rows, token, up, cfg, user);
      }
    }
  }

  // ---------------------------------------------------------------------------
  // The handlers
  // ---------------------------------------------------------------------------

  /** POST /user: guards, the body's validation, create, then createSuccess through TransformInterceptor at 201. */
  function CreateRequest(cs: CacheState, rows: seq<User>, token: Option<JwtPayload>, body: CreateUserBody,
                         isEmail: string -> bool, up: bool, cfg: Config, newId: string, now: int)
    : (w: Write<Result<StandardResponse<()>, Error>>)
    requires WellTyped(cs.entries)
  {
    var g := Guarded(CreateUser, cs, rows, token, up, cfg);
    if g.result.Failure? then Write(Failure(g.result.error), g.cache, rows)
    else match ValidateCreateUser(body, isEmail)
      case Failure(e) => Write(Failure(e), g.cache, rows)
      case Success(dto) =>
        var c := CreateStep(g.cache, rows, dto, up, cfg, newId, now);
        if c.result.Failure? then Write(Failure(c.result.error), c.cache, c.rows)
        else Write(Success(Transform(CREATED, CreateSuccess(Some("User created successfully")))), c.cache, c.rows)
  }

  /** The data findAll's handler hands to findSuccess: the page with its entities turned into presenters. */
  function ListBody(served: Served<Page<UserView>, Page<User>>): (b: PageBody<UserView>)
    ensures served.FromRepo? ==> b == PageBody(Some(PresentPage(served.loaded).entities), served.loaded.meta)
    ensures served.FromCache? ==> b == PageBody(Some(served.hit.entities), served.hit.meta)
  {
    match served
    case FromRepo(p) => PageBody(Some(PresentPage(p).entities), p.meta)
    case FromCache(p) => PageBody(Some(p.entities), p.meta)
  }

  /** GET /user after the guards and the query's validation: findAll, findSuccess, PaginationInterceptor. */
  function ListHandler(cs: CacheState, rows: seq<User>, q: Filter, up: bool, cfg: Config)
    : (s: Step<Result<StandardResponse<Page<UserView>>, Error>>)
    requires WellTyped(cs.entries)
  {
    var f := FindAllStep(cs, rows, q, up, cfg);
    if f.result.Failure? then Step(Failure(f.result.error), f.cache)
    else Step(Success(Paginate(OK, FindSuccess(ListBody(f.result.value), Some("Users retrieved successfully"), None))), f.cache)
  }

  /** GET /user. */
  function ListRequest(cs: CacheState, rows: seq<User>, token: Option<JwtPayload>, query: FilterQuery, up: bool, cfg: Config)
    : (s: Step<Result<StandardResponse<Page<UserView>>, Error>>)
    requires WellTyped(cs.entries)
  {
    var g := Guarded(ListUsers, cs, rows, token, up, cfg);
    if g.result.Failure? then Step(Failure(g.result.error), g.cache)
    else match NormalizeFilter(query)
      case Failure(e) => Step(Failure(e), g.cache)
      case Success(q) => ListHandler(g.cache, rows, q, up, cfg)
  }

  /** GET /user/:id: the guards, ParseUUIDPipe, findOne, findSuccess through TransformInterceptor. */
  function GetRequest(cs: CacheState, rows: seq<User>, token: Option<JwtPayload>, id: string,
                      isUuid: string -> bool, up: bool, cfg: Config)
    : (s: Step<Result<StandardResponse<UserView>, Error>>)
    requires WellTyped(cs.entries)
  {
    var g := Guarded(GetUser, cs, rows, token, up, cfg);
    if g.result.Failure? then Step(Failure(g.result.error), g.cache)
    else if !isUuid(id) then Step(Failure(BadRequest(UUID_EXPECTED)), g.cache)
    else
      var f := FindOneStep(g.cache, rows, id, up, cfg);
      if f.result.Failure? then Step(Failure(f.result.error), f.cache)
      else Step(Success(Transform(OK, FindSuccess(ViewOf(f.result.value), Some("User found successfully"), None))), f.cache)
  }

  /** PATCH /user/:id: the guards, ParseUUIDPipe, the body's validation, update, updateSuccess of the presenter. */
  function UpdateRequest(cs: CacheState, rows: seq<User>, token: Option<JwtPayload>, id: string, body: UpdateUserBody,
                         isUuid: string -> bool, isEmail: string -> bool, up: bool, cfg: Config)
    : (w: Write<Result<StandardResponse<UserView>, Error>>)
    requires WellTyped(cs.entries)
  {
    var g := Guarded(UpdateUser, cs, rows, token, up, cfg);
    if g.result.Failure? then Write(Failure(g.result.error), g.cache, rows)
    else if !isUuid(id) then Write(Failure(BadRequest(UUID_EXPECTED)), g.cache, rows)
    else match ValidateUpdateUser(body, isEmail)
      case Failure(e) => Write(Failure(e), g.cache, rows)
      case Success(dto) =>
        var u := UpdateStep(g.cache, rows, id, dto, up, cfg);
        if u.result.Failure? then Write(Failure(u.result.error), u.cache, u.rows)
        else Write(Success(Transform(OK, UpdateSuccess(Present(u.result.value), Some("User updated successfully")))), u.cache, u.rows)
  }

  /**
   * DELETE /user/:id: the guards, ParseUUIDPipe, remove, deleteSuccess. The
   * route sets no status of its own, so the response is sent with 200 and
   * TransformInterceptor reports that, not deleteSuccess's 204.
   */
  function DeleteRequest(cs: CacheState, rows: seq<User>, token: Option<JwtPayload>, id: string,
                         isUuid: string -> bool, up: bool, cfg: Config)
    : (w: Write<Result<StandardResponse<()>, Error>>)
    requires WellTyped(cs.entries)
  {
    var g := Guarded(DeleteUser, cs, rows, token, up, cfg);
    if g.result.Failure? then Write(Failure(g.result.error), g.cache, rows)
    else if !isUuid(id) then Write(Failure(BadRequest(UUID_EXPECTED)), g.cache, rows)
    else
      var r := RemoveStep(g.cache, rows, id, up);
      if r.result.Failure? then Write(Failure(r.result.error), r.cache, r.rows)
      else Write(Success(Transform(OK, DeleteSuccess(Some("User deleted successfully")))), r.cache, r.rows)
  }

  // ---------------------------------------------------------------------------
  // What the routes promise
  // ---------------------------------------------------------------------------

  /** Without a token every route answers 401 and leaves the cache and the table as they were. */
  lemma EveryRouteAuthenticates(cs: CacheState, rows: seq<User>, id: string, query: FilterQuery,
                                createBody: CreateUserBody, updateBody: UpdateUserBody,
                                isUuid: string -> bool, isEmail: string -> bool, up: bool, cfg: Config, newId: string, now: int)
    requires WellTyped(cs.entries)
    ensures CreateRequest(cs, rows, None, createBody, isEmail, up, cfg, newId, now)
      == Write(Failure(Unauthorized(UNAUTHORIZED_MESSAGE)), cs, rows)
    ensures ListRequest(cs, rows, None, query, up, cfg) == Step(Failure(Unauthorized(UNAUTHORIZED_MESSAGE)), cs)
    ensures GetRequest(cs, rows, None, id, isUuid, up, cfg) == Step(Failure(Unauthorized(UNAUTHORIZED_MESSAGE)), cs)
    ensures UpdateRequest(cs, rows, None, id, updateBody, isUuid, isEmail, up, cfg)
      == Write(Failure(Unauthorized(UNAUTHORIZED_MESSAGE)), cs, rows)
    ensures DeleteRequest(cs, rows, None, id, isUuid, up, cfg) == Write(Failure(Unauthorized(UNAUTHORIZED_MESSAGE)), cs, rows)
    ensures StatusOf(Unauthorized(UNAUTHORIZED_MESSAGE)) == UNAUTHORIZED
  {
    GuardOutcome(CreateUser, cs, rows, None, up, cfg);
    GuardOutcome(ListUsers, cs, rows, None, up, cfg);
    GuardOutcome(GetUser, cs, rows, None, up, cfg);
    GuardOutcome(UpdateUser, cs, rows, None, up, cfg);
    GuardOutcome(DeleteUser, cs, rows, None, up, cfg);
  }

  /** Only a superadmin's token can delete: a DELETE that changes the table carried the role "superadmin". */
  lemma OnlySuperadminDeletes(cs: CacheState, rows: seq<User>, token: Option<JwtPayload>, id: string,
                              isUuid: string -> bool, up: bool, cfg: Config)
    requires WellTyped(cs.entries)
    ensures DeleteRequest(cs, rows, token, id, isUuid, up, cfg).rows != rows ==>
      token.Some? && token.value.role == Some("superadmin")
  {
    if Guarded(DeleteUser, cs, rows, token, up, cfg).result.Success? {
      AdmittedRoleIsDeclared(DeleteUser, cs, rows, token, up, cfg);
    }
  }

  /** Only an administrator's token can update: a PATCH that changes the table carried "admin" or "superadmin". */
  lemma OnlyAdminsUpdate(cs: CacheState, rows: seq<User>, token: Option<JwtPayload>, id: string, body: UpdateUserBody,
                         isUuid: string -> bool, isEmail: string -> bool, up: bool, cfg: Config)
    requires WellTyped(cs.entries)
    ensures UpdateRequest(cs, rows, token, id, body, isUuid, isEmail, up, cfg).rows != rows ==>
      token.Some? && (token.value.role == Some("admin") || token.value.role == Some("superadmin"))
  {
    if Guarded(UpdateUser, cs, rows, token, up, cfg).result.Success? {
      AdmittedRoleIsDeclared(UpdateUser, cs, rows, token, up, cfg);
    }
  }

  /**
   * POST /user names no roles, so RolesGuard admits every authenticated
   * identity: a plain user's token creates accounts, ADMIN ones included, as
   * far as create itself allows.
   */
  lemma AnyUserMayCreate(cs: CacheState, rows: seq<User>, p: JwtPayload, body: CreateUserBody,
                         isEmail: string -> bool, cfg: Config, newId: string, now: int)
    requires WellTyped(cs.entries) && Coherent(cs.entries, rows) && PayloadComplete(p) && p.role == Some("user")
    requires UserRepo.FindOne(rows, p.sub.value).Some?
    ensures var g := Guarded(CreateUser, cs, rows, Some(p), true, cfg);
      g.result.Success? &&
      var dto := ValidateCreateUser(body, isEmail);
      dto.Success? ==>
        var c := CreateStep(g.cache, rows, dto.value, true, cfg, newId, now);
        CreateRequest(cs, rows, Some(p), body, isEmail, true, cfg, newId, now).rows == c.rows &&
        (CreateRequest(cs, rows, Some(p), body, isEmail, true, cfg, newId, now).result.Success? <==> c.result.Success?)
  {
    RouteAdmission(CreateUser, cs, rows, p, cfg);
  }

  /** A created user is answered with 201, "User created successfully" and no data: the new id is not returned. */
  lemma CreateAnswers201WithoutData(cs: CacheState, rows: seq<User>, token: Option<JwtPayload>, body: CreateUserBody,
                                    isEmail: string -> bool, up: bool, cfg: Config, newId: string, now: int)
    requires WellTyped(cs.entries)
    requires CreateRequest(cs, rows, token, body, isEmail, up, cfg, newId, now).result.Success?
    ensures var w := CreateRequest(cs, rows, token, body, isEmail, up, cfg, newId, now);
      w.result.value == StandardResponse(CREATED, "User created successfully", None) &&
      exists u :: w.rows == rows + [u] && u.id == newId
  {
    var g := Guarded(CreateUser, cs, rows, token, up, cfg);
    var dto := ValidateCreateUser(body, isEmail).value;
    var c := CreateStep(g.cache, rows, dto, up, cfg, newId, now);
    assert c.result.Success?;
    var u := c.result.value;
    assert c.rows == rows + [u];
  }

  /** A deleted user is answered with 200 (not 204), "User deleted successfully" and no data, and is gone from the table. */
  lemma DeleteAnswers200WithoutData(cs: CacheState, rows: seq<User>, token: Option<JwtPayload>, id: string,
                                    isUuid: string -> bool, up: bool, cfg: Config)
    requires WellTyped(cs.entries)
    requires DeleteRequest(cs, rows, token, id, isUuid, up, cfg).result.Success?
    ensures var w := DeleteRequest(cs, rows, token, id, isUuid, up, cfg);
      w.result.value == StandardResponse(OK, "User deleted successfully", None) &&
      UserRepo.FindOne(rows, id).Some? && UserRepo.FindOne(w.rows, id).None?
  {
    var g := Guarded(DeleteUser, cs, rows, token, up, cfg);
    RemovedIdIsGone(rows, id);
  }

  /** Once the guards pass, an `:id` that is not a UUID is a 400 before the service is called: the table is untouched. */
  lemma MalformedIdIsRejected(cs: CacheState, rows: seq<User>, token: Option<JwtPayload>, id: string, body: UpdateUserBody,
                              isUuid: string -> bool, isEmail: string -> bool, up: bool, cfg: Config)
    requires WellTyped(cs.entries) && !isUuid(id)
    ensures Guarded(GetUser, cs, rows, token, up, cfg).result.Success? ==>
      GetRequest(cs, rows, token, id, isUuid, up, cfg).result == Failure(BadRequest(UUID_EXPECTED))
    ensures Guarded(UpdateUser, cs, rows, token, up, cfg).result.Success? ==>
      UpdateRequest(cs, rows, token, id, body, isUuid, isEmail, up, cfg).result == Failure(BadRequest(UUID_EXPECTED))
    ensures Guarded(DeleteUser, cs, rows, token, up, cfg).result.Success? ==>
      DeleteRequest(cs, rows, token, id, isUuid, up, cfg).result == Failure(BadRequest(UUID_EXPECTED))
    ensures UpdateRequest(cs, rows, token, id, body, isUuid, isEmail, up, cfg).rows == rows
    ensures DeleteRequest(cs, rows, token, id, isUuid, up, cfg).rows == rows
  {
  }

  /**
   * On a cache that agrees with the table, GET /user/:id by any stored
   * identity answers the presenter of the live row with that id, and 404
   * exactly when there is none.
   */
  lemma GetAgreesWithRepo(cs: CacheState, rows: seq<User>, p: JwtPayload, id: string, isUuid: string -> bool, cfg: Config)
    requires WellTyped(cs.entries) && Coherent(cs.entries, rows) && PayloadComplete(p) && isUuid(id)
    requires UserRepo.FindOne(rows, p.sub.value).Some?
    ensures var s := GetRequest(cs, rows, Some(p), id, isUuid, true, cfg);
      (s.result.Failure? <==> UserRepo.FindOne(rows, id).None?) &&
      (s.result.Failure? ==> s.result.error == NotFound("User with id " + id + " not found")) &&
      (s.result.Success? ==> s.result.value == StandardResponse(OK, "User found successfully", Some(Present(UserRepo.FindOne(rows, id).value))))
  {
    RouteAdmission(GetUser, cs, rows, p, cfg);
    var g := Guarded(GetUser, cs, rows, Some(p), true, cfg);
    GuardsKeepCoherent(GuardsOf(GetUser), RequiredRoles(GetUser), cs, rows, Some(p), true, cfg, None);
    CoherentFindOneAgreesWithRepo(g.cache, rows, id, cfg);
  }

  /**
   * Two identical listings answer the same page when the first fills the
   * cache: the second is served from the entry the first stored.
   */
  lemma SecondListingRepeatsTheFirst(cs: CacheState, rows: seq<User>, q: Filter, cfg: Config)
    requires WellTyped(cs.entries) && ListKey(cfg.stringify(q)) !in cs.entries
    ensures var first := ListHandler(cs, rows, q, true, cfg);
      WellTyped(first.cache.entries) &&
      var second := ListHandler(first.cache, rows, q, true, cfg);
      first.result.Success? && second.result.Success? &&
      first.result.value.data == Some(PresentPage(UserRepo.FindAll(rows, q))) &&
      second.result.value == first.result.value && second.cache == first.cache
  {
    ReadsKeepWellTyped(cs, rows, "", "", q, true, cfg);
  }

  // ---------------------------------------------------------------------------
  // findAll as written
  // ---------------------------------------------------------------------------

  /** The handler's data when findAll hands back a blank presenter: `...data` adds nothing and the entities are undefined. */
  function ListBodyAsWritten(served: Served<Option<Page<UserView>>, Page<User>>): (b: PageBody<UserView>)
    ensures served.FromCache? && served.hit.None? ==> b.entities.None?
    ensures served.FromRepo? ==> b == ListBody(FromRepo(served.loaded))
  {
    match served
    case FromRepo(p) => ListBody(FromRepo(p))
    case FromCache(None) => PageBody(None, None)
    case FromCache(Some(p)) => ListBody(FromCache(p))
  }

  /** ListHandler over findAll as written. */
  function ListHandlerAsWritten(cs: CacheState, rows: seq<User>, q: Filter, up: bool, cfg: Config)
    : (s: Step<Result<StandardResponse<Page<UserView>>, Error>>)
  {
    var f := FindAllStepAsWritten(cs, rows, q, up, cfg);
    if f.result.Failure? then Step(Failure(f.result.error), f.cache)
    else Step(Success(Paginate(OK, FindSuccess(ListBodyAsWritten(f.result.value), Some("Users retrieved successfully"), None))), f.cache)
  }

  /**
   * As written, the listing that fills the cache answers the users, and the
   * same listing right after it answers the empty page: the cached blank has
   * no entities, and PaginationInterceptor substitutes its default.
   */
  lemma AsWrittenSecondListingIsEmpty(cs: CacheState, rows: seq<User>, q: Filter, cfg: Config)
    requires ListKey(cfg.stringify(q)) !in cs.entries && UserRepo.FindAll(rows, q).entities != []
    ensures var first := ListHandlerAsWritten(cs, rows, q, true, cfg);
      var second := ListHandlerAsWritten(first.cache, rows, q, true, cfg);
      first.result.Success? && second.result.Success? &&
      first.result.value.data == Some(PresentPage(UserRepo.FindAll(rows, q))) &&
      first.result.value.data.value.entities != [] &&
      second.result.value.data == Some(EmptyPage())
  {
    var page := UserRepo.FindAll(rows, q);
    assert |PresentPage(page).entities| == |page.entities|;
  }
}
