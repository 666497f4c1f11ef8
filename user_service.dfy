/**
 * UserService: the business rules of user management in front of the
 * repository, with a cache-through layer over a key/value store.
 *
 * The cache store is a map from keys to cached presenters, and the service's
 * own `userCacheKeys` set sits beside it. Whether the store answers is the
 * parameter `up` of each request: when it is down every call into it throws.
 * Where the source catches that error the request goes on; elsewhere it fails
 * with a `Crash`. bcrypt is the configured `hash` (one-way, under the
 * service's salt), JSON.stringify of a filter and the serialised length of a
 * user are configured functions too.
 */
module UserService {
  import opened Wrappers
  import opened Text
  import opened Domain
  import opened UserDtos
  import opened BaseFilter
  import opened UserRepo

  // ---------------------------------------------------------------------------
  // Configuration, keys and the cache state
  // ---------------------------------------------------------------------------

  /** What the service takes from its libraries: bcrypt under its salt, the salt itself, two serialisations. */
  datatype Config = Config(hash: Digest, salt: string, stringify: Filter -> string, jsonLength: User -> nat)

  const NAMESPACE := "user"
  const ID_PREFIX := "user:id:"
  const EMAIL_PREFIX := "user:email:"
  const LIST_PREFIX := "user:list:"
  /** `setCachedUser` caches a user only below this serialised size. */
  const MAX_CACHED_SIZE := 100 * 1024

  const CACHE_DOWN := "cache store unavailable"
  const SALT_MISSING := "Salt has not been initialized"
  /** What bcrypt.compare rejects with when the hash argument is missing. */
  const BCRYPT_MISSING_ARGUMENT := "data and hash arguments required"

  lemma PrefixOfConcat(a: string, b: string, p: string)
    requires StartsWith(a, p)
    ensures StartsWith(a + b, p)
  {
    assert (a + b)[..|p|] == a[..|p|];
  }

  /** getUserCacheKey. */
  function IdKey(id: string): (k: string)
    ensures StartsWith(k, ID_PREFIX) && StartsWith(k, NAMESPACE)
    ensures k[|ID_PREFIX|..] == id
  {
    PrefixOfConcat(ID_PREFIX, id, NAMESPACE);
    PrefixOfConcat(ID_PREFIX, id, ID_PREFIX);
    NAMESPACE + ":id:" + id
  }

  /** getUserEmailCacheKey. */
  function EmailKey(email: string): (k: string)
    ensures StartsWith(k, EMAIL_PREFIX) && StartsWith(k, NAMESPACE)
    ensures k[|EMAIL_PREFIX|..] == email
  {
    PrefixOfConcat(EMAIL_PREFIX, email, NAMESPACE);
    PrefixOfConcat(EMAIL_PREFIX, email, EMAIL_PREFIX);
    NAMESPACE + ":email:" + email
  }

  /** getUserListCacheKey, on the JSON text of the filter. */
  function ListKey(json: string): (k: string)
    ensures StartsWith(k, LIST_PREFIX) && StartsWith(k, NAMESPACE)
    ensures k[|LIST_PREFIX|..] == json
  {
    PrefixOfConcat(LIST_PREFIX, json, NAMESPACE);
    PrefixOfConcat(LIST_PREFIX, json, LIST_PREFIX);
    NAMESPACE + ":list:" + json
  }

  /** The three key families never collide, and each key names exactly one id, email or filter text. */
  lemma KeyFamiliesDisjoint(id: string, email: string, json: string)
    ensures IdKey(id) != EmailKey(email) && IdKey(id) != ListKey(json) && EmailKey(email) != ListKey(json)
    ensures !StartsWith(IdKey(id), LIST_PREFIX) && !StartsWith(EmailKey(email), LIST_PREFIX)
  {
    assert IdKey(id)[5] == 'i' && EmailKey(email)[5] == 'e' && ListKey(json)[5] == 'l';
  }

  lemma KeysAreInjective(a: string, b: string)
    ensures IdKey(a) == IdKey(b) ==> a == b
    ensures EmailKey(a) == EmailKey(b) ==> a == b
    ensures ListKey(a) == ListKey(b) ==> a == b
  {
  }

  /** What the store holds under a key: a cached presenter or a cached page of them. */
  datatype CacheEntry =
    | CachedUser(view: UserView)
    | CachedPage(page: Page<UserView>)
    | CachedBlank    // a UserPresenter built from a page object: none of its exposed fields exist there

  /** The store and the service's tracked-key set. */
  datatype CacheState = CacheState(entries: map<string, CacheEntry>, tracked: set<string>)

  /** List keys hold pages, every other key a user; nothing blank is stored. */
  predicate WellTyped(m: map<string, CacheEntry>) {
    forall k | k in m :: !m[k].CachedBlank? && (m[k].CachedPage? <==> StartsWith(k, LIST_PREFIX))
  }

  /** `plainToInstance(UserPresenter, ...)` on each entity of a page; the meta block is kept. */
  function PresentPage(p: Page<User>): (r: Page<UserView>)
    ensures |r.entities| == |p.entities| && r.meta == p.meta
    ensures forall i | 0 <= i < |p.entities| :: r.entities[i] == Present(p.entities[i])
  {
    Page(seq(|p.entities|, i requires 0 <= i < |p.entities| => Present(p.entities[i])), p.meta)
  }

  /** A read answered from the cache or loaded from the repository. */
  datatype Served<C, L> = FromCache(hit: C) | FromRepo(loaded: L)

  /** A read's answer and the cache state after it. */
  datatype Step<R> = Step(result: R, cache: CacheState)

  /** A write's answer, the cache state and the table after it. */
  datatype Write<R> = Write(result: R, cache: CacheState, rows: seq<User>)

  function WithoutPrefix(m: map<string, CacheEntry>, prefix: string): (r: map<string, CacheEntry>)
    ensures forall k :: k in r <==> k in m && !StartsWith(k, prefix)
    ensures forall k | k in r :: r[k] == m[k]
  {
    map k | k in m && !StartsWith(k, prefix) :: m[k]
  }

  // ---------------------------------------------------------------------------
  // The cache helpers
  // ---------------------------------------------------------------------------

  /** setCachedUser on a store that answers: only a user serialising below MAX_CACHED_SIZE is stored and tracked. */
  function AfterSetCachedUser(cs: CacheState, key: string, u: User, jsonLength: User -> nat): (r: CacheState)
    ensures jsonLength(u) < MAX_CACHED_SIZE ==>
      r.entries == cs.entries[key := CachedUser(Present(u))] && r.tracked == cs.tracked + {key}
    ensures jsonLength(u) >= MAX_CACHED_SIZE ==> r == cs
  {
    if jsonLength(u) < MAX_CACHED_SIZE then CacheState(cs.entries[key := CachedUser(Present(u))], cs.tracked + {key})
    else cs
  }

  /** clearCacheByPattern: every key with the prefix goes; a failing store is logged and ignored. */
  function AfterClearByPattern(cs: CacheState, pattern: string, up: bool): (r: CacheState)
    ensures r.tracked == cs.tracked
    ensures up ==> forall k :: k in r.entries <==> k in cs.entries && !StartsWith(k, pattern)
    ensures !up ==> r == cs
  {
    if up then cs.(entries := WithoutPrefix(cs.entries, pattern)) else cs
  }

  /**
   * invalidateUserCache: delete the id key, the email key of the user with
   * that id (when it has a non-empty email), every list key, then forget the
   * tracked keys. A failing store throws at the first delete, which is caught.
   */
  function AfterInvalidateUser(cs: CacheState, rows: seq<User>, id: string, up: bool): CacheState {
    if !up then cs
    else
      var e1 := cs.entries - {IdKey(id)};
      var u := UserRepo.FindOne(rows, id);
      var e2 := if u.Some? && u.value.email != "" then e1 - {EmailKey(u.value.email)} else e1;
      CacheState(AfterClearByPattern(CacheState(e2, cs.tracked), LIST_PREFIX, true).entries, {})
  }

  /** invalidateAllUserCache: clear every key of the namespace; the tracked set is emptied even when the store fails. */
  function AfterInvalidateAll(cs: CacheState, up: bool): CacheState {
    CacheState(AfterClearByPattern(cs, NAMESPACE, up).entries, {})
  }

  /** After invalidating a user, neither its id key, its email key nor any list key is cached. */
  lemma InvalidateUserRemovesItsKeys(cs: CacheState, rows: seq<User>, id: string)
    ensures var r := AfterInvalidateUser(cs, rows, id, true);
      IdKey(id) !in r.entries && r.tracked == {} &&
      (UserRepo.FindOne(rows, id).Some? && UserRepo.FindOne(rows, id).value.email != "" ==>
         EmailKey(UserRepo.FindOne(rows, id).value.email) !in r.entries) &&
      (forall json :: ListKey(json) !in r.entries) &&
      (forall k | k in r.entries :: k in cs.entries && r.entries[k] == cs.entries[k])
  {
  }

  /** After invalidating everything on a store that answers, no key of the three families is left. */
  lemma InvalidateAllRemovesEveryServiceKey(cs: CacheState)
    ensures var r := AfterInvalidateAll(cs, true);
      r.tracked == {} &&
      (forall k | k in r.entries :: !StartsWith(k, NAMESPACE)) &&
      (forall id :: IdKey(id) !in r.entries) &&
      (forall e :: EmailKey(e) !in r.entries) &&
      (forall json :: ListKey(json) !in r.entries)
  {
  }

  /** A failing store never fails the invalidators: they change at most the tracked set. */
  lemma InvalidatorsSwallowCacheErrors(cs: CacheState, rows: seq<User>, id: string)
    ensures AfterInvalidateUser(cs, rows, id, false) == cs
    ensures AfterInvalidateAll(cs, false) == CacheState(cs.entries, {})
  {
  }

  /** hashPassword: fails before the salt exists, otherwise yields a hash that bcrypt.compare matches with the password. */
  function HashPassword(cfg: Config, password: string): (r: Result<string, Error>)
    ensures r.Failure? <==> cfg.salt == ""
    ensures r.Failure? ==> r.error == Crash(SALT_MISSING)
    ensures r.Success? ==> Compare(cfg.hash, password, r.value)
  {
    if cfg.salt == "" then Failure(Crash(SALT_MISSING)) else Success(cfg.hash(password))
  }

  // ---------------------------------------------------------------------------
  // Reads
  // ---------------------------------------------------------------------------

  /** findOne: cache-through by id; a missing user is NotFound; cache errors are not caught. */
  function FindOneStep(cs: CacheState, rows: seq<User>, id: string, up: bool, cfg: Config)
    : (s: Step<Result<Served<UserView, User>, Error>>)
    requires WellTyped(cs.entries)
  {
    if !up then Step(Failure(Crash(CACHE_DOWN)), cs)
    else if IdKey(id) in cs.entries then
      KeyFamiliesDisjoint(id, "", "");
      Step(Success(FromCache(cs.entries[IdKey(id)].view)), cs)
    else match UserRepo.FindOne(rows, id)
      case None => Step(Failure(NotFound("User with id " + id + " not found")), cs)
      case Some(u) => Step(Success(FromRepo(u)), AfterSetCachedUser(cs, IdKey(id), u, cfg.jsonLength))
  }

  /** findOneByEmail: cache-through by email; every cache error is logged and the repository answers. */
  function FindOneByEmailStep(cs: CacheState, rows: seq<User>, email: string, up: bool, cfg: Config)
    : (s: Step<Option<Served<UserView, User>>>)
    requires WellTyped(cs.entries)
  {
    if up && EmailKey(email) in cs.entries then
      KeyFamiliesDisjoint("", email, "");
      Step(Some(FromCache(cs.entries[EmailKey(email)].view)), cs)
    else match UserRepo.FindOneByEmail(rows, email)
      case None => Step(None, cs)
      case Some(u) => Step(Some(FromRepo(u)), if up then AfterSetCachedUser(cs, EmailKey(email), u, cfg.jsonLength) else cs)
  }

  /** findAll: cache-through by the filter's JSON; the page is cached with its entities as presenters. */
  function FindAllStep(cs: CacheState, rows: seq<User>, q: Filter, up: bool, cfg: Config)
    : (s: Step<Result<Served<Page<UserView>, Page<User>>, Error>>)
    requires WellTyped(cs.entries)
  {
    var key := ListKey(cfg.stringify(q));
    if !up then Step(Failure(Crash(CACHE_DOWN)), cs)
    else if key in cs.entries then Step(Success(FromCache(cs.entries[key].page)), cs)
    else
      var page := UserRepo.FindAll(rows, q);
      Step(Success(FromRepo(page)), CacheState(cs.entries[key := CachedPage(PresentPage(page))], cs.tracked + {key}))
  }

  /**
   * findAll as written: what it stores under the list key is
   * `plainToInstance(UserPresenter, page)`, a presenter built from the page
   * object, which carries none of the page's fields; a later hit hands that
   * blank value back (`None`).
   */
  function FindAllStepAsWritten(cs: CacheState, rows: seq<User>, q: Filter, up: bool, cfg: Config)
    : (s: Step<Result<Served<Option<Page<UserView>>, Page<User>>, Error>>)
  {
    var key := ListKey(cfg.stringify(q));
    if !up then Step(Failure(Crash(CACHE_DOWN)), cs)
    else if key in cs.entries then
      Step(Success(FromCache(if cs.entries[key].CachedPage? then Some(cs.entries[key].page) else None)), cs)
    else
      var page := UserRepo.FindAll(rows, q);
      Step(Success(FromRepo(page)), CacheState(cs.entries[key := CachedBlank], cs.tracked + {key}))
  }

  /**
   * Asking findOne again right after a success answers the same presenter
   * and leaves the cache as the first call left it.
   */
  lemma FindOneIsRepeatable(cs: CacheState, rows: seq<User>, id: string, up: bool, cfg: Config)
    requires WellTyped(cs.entries) && FindOneStep(cs, rows, id, up, cfg).result.Success?
    ensures var s := FindOneStep(cs, rows, id, up, cfg);
      WellTyped(s.cache.entries) &&
      var t := FindOneStep(s.cache, rows, id, up, cfg);
      t.cache == s.cache && t.result.Success? &&
      (s.result.value.FromCache? ==> t.result.value == s.result.value) &&
      (s.result.value.FromRepo? ==> (t.result.value.FromCache? && t.result.value.hit == Present(s.result.value.loaded)) || t.result.value == s.result.value)
  {
    ReadsKeepWellTyped(cs, rows, id, "", Filter(None, false, None, None, None, None), up, cfg);
    KeyFamiliesDisjoint(id, "", "");
  }

  /** The reads keep the cache well typed. */
  lemma ReadsKeepWellTyped(cs: CacheState, rows: seq<User>, id: string, email: string, q: Filter, up: bool, cfg: Config)
    requires WellTyped(cs.entries)
    ensures WellTyped(FindOneStep(cs, rows, id, up, cfg).cache.entries)
    ensures WellTyped(FindOneByEmailStep(cs, rows, email, up, cfg).cache.entries)
    ensures WellTyped(FindAllStep(cs, rows, q, up, cfg).cache.entries)
  {
    KeyFamiliesDisjoint(id, email, cfg.stringify(q));
  }

  /** A cache hit answers the cached presenter and changes nothing; the repository is not consulted. */
  lemma FindOneHitIsServedFromCache(cs: CacheState, rows: seq<User>, id: string, cfg: Config)
    requires WellTyped(cs.entries) && IdKey(id) in cs.entries
    ensures var s := FindOneStep(cs, rows, id, true, cfg);
      s.cache == cs && s.result.Success? && s.result.value.FromCache? &&
      cs.entries[IdKey(id)] == CachedUser(s.result.value.hit)
  {
    KeyFamiliesDisjoint(id, "", "");
  }

  /**
   * On a miss an unknown id is NotFound and nothing is cached; a found user is
   * answered from the repository and cached iff it serialises below the limit.
   */
  lemma FindOneMiss(cs: CacheState, rows: seq<User>, id: string, cfg: Config)
    requires WellTyped(cs.entries) && IdKey(id) !in cs.entries
    ensures var s := FindOneStep(cs, rows, id, true, cfg);
      (UserRepo.FindOne(rows, id).None? ==> s == Step(Failure(NotFound("User with id " + id + " not found")), cs)) &&
      (UserRepo.FindOne(rows, id).Some? ==>
        s.result == Success(FromRepo(UserRepo.FindOne(rows, id).value)) &&
        (IdKey(id) in s.cache.entries <==> cfg.jsonLength(UserRepo.FindOne(rows, id).value) < MAX_CACHED_SIZE))
  {
  }

  /** findOneByEmail never fails, and with a failing store it is exactly the repository lookup. */
  lemma FindOneByEmailSwallowsCacheErrors(cs: CacheState, rows: seq<User>, email: string, cfg: Config)
    requires WellTyped(cs.entries)
    ensures var s := FindOneByEmailStep(cs, rows, email, false, cfg);
      s.cache == cs &&
      (s.result.None? <==> UserRepo.FindOneByEmail(rows, email).None?) &&
      (s.result.Some? ==> s.result.value == FromRepo(UserRepo.FindOneByEmail(rows, email).value))
  {
  }

  /** On a store that answers, a missing email returns null and leaves the cache alone. */
  lemma FindOneByEmailMissingIsNull(cs: CacheState, rows: seq<User>, email: string, cfg: Config)
    requires WellTyped(cs.entries) && EmailKey(email) !in cs.entries
    requires UserRepo.FindOneByEmail(rows, email).None?
    ensures FindOneByEmailStep(cs, rows, email, true, cfg) == Step(None, cs)
  {
  }

  // ---------------------------------------------------------------------------
  // Writes
  // ---------------------------------------------------------------------------

  /**
   * create: no SUPERADMIN; Conflict when the cache-through email lookup finds
   * someone; then hash, insert, and invalidate the new user's keys.
   */
  function CreateStep(cs: CacheState, rows: seq<User>, dto: CreateUserDto, up: bool, cfg: Config, newId: string, now: int)
    : (w: Write<Result<User, Error>>)
    requires WellTyped(cs.entries)
  {
    if dto.role == Some(SUPERADMIN) then
      Write(Failure(BadRequest("Can't Create User with role " + RoleName(SUPERADMIN))), cs, rows)
    else
      var lookup := FindOneByEmailStep(cs, rows, dto.email, up, cfg);
      if lookup.result.Some? then
        Write(Failure(Conflict("User with email " + dto.email + " already exists")), lookup.cache, rows)
      else match HashPassword(cfg, dto.password)
        case Failure(e) => Write(Failure(e), cs, rows)
        case Success(h) =>
          var created := CreateOutcome(rows, dto.(password := h), newId, now);
          if created.Failure? then Write(Failure(created.error), cs, rows)
          else Write(Success(created.value), AfterInvalidateUser(cs, rows + [created.value], newId, up), rows + [created.value])
  }

  /**
   * The password part of update against the hash `against`: nothing to do
   * without a truthy new password; otherwise the old one is required, is
   * compared by bcrypt, and the new one is hashed.
   */
  function PasswordStep(dto: UpdateUserDto, against: Option<string>, cfg: Config): (r: Result<Option<string>, Error>)
    ensures !Truthy(dto.password) ==> r == Success(dto.password)
    ensures Truthy(dto.password) && !Truthy(dto.oldPassword) ==> r == Failure(BadRequest("Old password is required"))
    ensures Truthy(dto.password) && Truthy(dto.oldPassword) && against.Some? && !Compare(cfg.hash, dto.oldPassword.value, against.value) ==>
      r == Failure(BadRequest("Passwords do not match"))
    ensures r.Success? && Truthy(dto.password) ==>
      r.value.Some? && Compare(cfg.hash, dto.password.value, r.value.value) && against == Some(cfg.hash(dto.oldPassword.value))
  {
    if !Truthy(dto.password) then Success(dto.password)
    else if !Truthy(dto.oldPassword) then Failure(BadRequest("Old password is required"))
    else if against.None? then Failure(Crash(BCRYPT_MISSING_ARGUMENT))
    else if !Compare(cfg.hash, dto.oldPassword.value, against.value) then Failure(BadRequest("Passwords do not match"))
    else match HashPassword(cfg, dto.password.value)
      case Failure(e) => Failure(e)
      case Success(h) => Success(Some(h))
  }

  /** The fields an update writes: what the DTO gives, with the password replaced by `password`. */
  function UpdatePatch(dto: UpdateUserDto, password: Option<string>): (p: UserPatch)
    ensures p.name == dto.name && p.email == dto.email && p.role == dto.role && p.password == password && p.photo.None?
  {
    UserPatch(dto.name, dto.email, password, dto.role, None)
  }

  /** Whether update drops the old email key before saving: a truthy email different from the current one. */
  predicate EmailChanges(dto: UpdateUserDto, current: User) {
    Truthy(dto.email) && current.email != dto.email.value
  }

  /**
   * update (with the old password checked against the stored hash): NotFound,
   * Conflict for any live holder of the new email, the old email key dropped
   * (uncaught), the password checks, save of the merged row, and a full
   * invalidation.
   */
  function UpdateStep(cs: CacheState, rows: seq<User>, id: string, dto: UpdateUserDto, up: bool, cfg: Config)
    : (w: Write<Result<User, Error>>)
  {
    var user := UserRepo.FindOne(rows, id);
    if user.None? then Write(Failure(NotFound("User with id " + id + " not found")), cs, rows)
    else if Truthy(dto.email) && UserRepo.FindOneByEmail(rows, dto.email.value).Some? then
      Write(Failure(Conflict("User with email " + dto.email.value + " already exists")), cs, rows)
    else if EmailChanges(dto, user.value) && !up then Write(Failure(Crash(CACHE_DOWN)), cs, rows)
    else
      var cs1 := if EmailChanges(dto, user.value) then cs.(entries := cs.entries - {EmailKey(user.value.email)}) else cs;
      match PasswordStep(dto, StoredById(rows, id).value.password, cfg)
      case Failure(e) => Write(Failure(e), cs1, rows)
      case Success(pw) =>
        var saved := UpdateOutcome(rows, id, UpdatePatch(dto, pw));
        if saved.Failure? then Write(Failure(saved.error), cs1, rows)
        else Write(Success(saved.value), AfterInvalidateAll(cs1, up), UpdatedRows(rows, id, UpdatePatch(dto, pw)))
  }

  /** remove: NotFound for an unknown id, otherwise a hard delete and a full invalidation. */
  function RemoveStep(cs: CacheState, rows: seq<User>, id: string, up: bool): (w: Write<Result<(), Error>>)
  {
    if UserRepo.FindOne(rows, id).None? then Write(Failure(NotFound("User with id " + id + " not found")), cs, rows)
    else Write(Success(()), AfterInvalidateAll(cs, up), WithoutId(rows, id))
  }

  // ---------------------------------------------------------------------------
  // What the writes promise
  // ---------------------------------------------------------------------------

  /** create refuses SUPERADMIN before anything is looked up or written. */
  lemma CreateRejectsSuperadmin(cs: CacheState, rows: seq<User>, dto: CreateUserDto, up: bool, cfg: Config, newId: string, now: int)
    requires WellTyped(cs.entries) && dto.role == Some(SUPERADMIN)
    ensures CreateStep(cs, rows, dto, up, cfg, newId, now)
      == Write(Failure(BadRequest("Can't Create User with role superadmin")), cs, rows)
  {
    assert "Can't Create User with role " + RoleName(SUPERADMIN) == "Can't Create User with role superadmin";
  }

  /** An email that a live row holds is a Conflict, wherever the lookup is answered from; the table is not written. */
  lemma CreateConflictsOnHeldEmail(cs: CacheState, rows: seq<User>, dto: CreateUserDto, up: bool, cfg: Config, newId: string, now: int)
    requires WellTyped(cs.entries) && dto.role != Some(SUPERADMIN)
    requires UserRepo.FindOneByEmail(rows, dto.email).Some? || (up && EmailKey(dto.email) in cs.entries)
    ensures CreateStep(cs, rows, dto, up, cfg, newId, now).result
      == Failure(Conflict("User with email " + dto.email + " already exists"))
    ensures CreateStep(cs, rows, dto, up, cfg, newId, now).rows == rows
  {
  }

  /**
   * A successful create appends one row holding bcrypt's hash of the password
   * instead of the password, the DTO's other fields and the role default; on a
   * store that answers, the new user's id key, email key and every list key
   * are then absent.
   */
  lemma CreateStoresTheHash(cs: CacheState, rows: seq<User>, dto: CreateUserDto, up: bool, cfg: Config, newId: string, now: int)
    requires WellTyped(cs.entries) && RowsValid(rows) && FreshId(rows, newId)
    requires CreateStep(cs, rows, dto, up, cfg, newId, now).result.Success?
    ensures var w := CreateStep(cs, rows, dto, up, cfg, newId, now);
      var u := w.result.value;
      w.rows == rows + [u] && RowsValid(w.rows) &&
      u.id == newId && u.name == dto.name && u.email == dto.email && u.role == dto.role.GetOr(USER) &&
      u.password == Some(cfg.hash(dto.password)) && Compare(cfg.hash, dto.password, u.password.value) &&
      dto.role != Some(SUPERADMIN) && UserRepo.FindOneByEmail(rows, dto.email).None? &&
      (up ==> IdKey(newId) !in w.cache.entries && (dto.email != "" ==> EmailKey(dto.email) !in w.cache.entries) &&
              (forall json :: ListKey(json) !in w.cache.entries))
  {
    var h := cfg.hash(dto.password);
    var d := dto.(password := h);
    InsertKeepsValid(rows, d, newId, now);
    InvalidateUserRemovesItsKeys(cs, rows + [NewRow(d, newId, now)], newId);
  }

  /** update of an unknown id is NotFound and changes nothing. */
  lemma UpdateUnknownIdNotFound(cs: CacheState, rows: seq<User>, id: string, dto: UpdateUserDto, up: bool, cfg: Config)
    requires UserRepo.FindOne(rows, id).None?
    ensures UpdateStep(cs, rows, id, dto, up, cfg) == Write(Failure(NotFound("User with id " + id + " not found")), cs, rows)
  {
  }

  /** A truthy email that any live row holds is a Conflict, the user's own current email included. */
  lemma UpdateConflictsOnOwnEmail(cs: CacheState, rows: seq<User>, id: string, dto: UpdateUserDto, up: bool, cfg: Config)
    requires UserRepo.FindOne(rows, id).Some?
    requires dto.email == Some(UserRepo.FindOne(rows, id).value.email) && Truthy(dto.email)
    ensures UpdateStep(cs, rows, id, dto, up, cfg)
      == Write(Failure(Conflict("User with email " + dto.email.value + " already exists")), cs, rows)
  {
    var i :| 0 <= i < |rows| && rows[i].id == id && UserRepo.FindOne(rows, id).value == Hide(rows[i]);
    assert rows[i].email == dto.email.value;
  }

  /** The conditions under which update gets as far as the password checks. */
  predicate ReachesPasswordCheck(rows: seq<User>, id: string, dto: UpdateUserDto, up: bool) {
    UserRepo.FindOne(rows, id).Some? &&
    !(Truthy(dto.email) && UserRepo.FindOneByEmail(rows, dto.email.value).Some?) &&
    (EmailChanges(dto, UserRepo.FindOne(rows, id).value) ==> up)
  }

  /** A new password without an old one, or with an old one that does not match the stored hash, is a BadRequest; the table stays. */
  lemma UpdatePasswordChecks(cs: CacheState, rows: seq<User>, id: string, dto: UpdateUserDto, up: bool, cfg: Config)
    requires ReachesPasswordCheck(rows, id, dto, up) && RowsValid(rows) && Truthy(dto.password)
    ensures !Truthy(dto.oldPassword) ==>
      UpdateStep(cs, rows, id, dto, up, cfg).result == Failure(BadRequest("Old password is required"))
    ensures Truthy(dto.oldPassword) && !Compare(cfg.hash, dto.oldPassword.value, StoredById(rows, id).value.password.value) ==>
      UpdateStep(cs, rows, id, dto, up, cfg).result == Failure(BadRequest("Passwords do not match"))
    ensures UpdateStep(cs, rows, id, dto, up, cfg).result.Failure? ==> UpdateStep(cs, rows, id, dto, up, cfg).rows == rows
  {
    var s := StoredById(rows, id).value;
    var k :| 0 <= k < |rows| && rows[k] == s;
  }

  /**
   * A successful update saves the stored row overlaid with the DTO, the new
   * password hashed (after the old one matched the stored hash), keeps the
   * table valid, and on a store that answers leaves no key of the namespace.
   */
  lemma UpdateSavesTheOverlay(cs: CacheState, rows: seq<User>, id: string, dto: UpdateUserDto, up: bool, cfg: Config)
    requires RowsValid(rows)
    requires UpdateStep(cs, rows, id, dto, up, cfg).result.Success?
    ensures var w := UpdateStep(cs, rows, id, dto, up, cfg);
      var stored := StoredById(rows, id).value;
      var pw := if Truthy(dto.password) then Some(cfg.hash(dto.password.value)) else dto.password;
      w.rows == UpdatedRows(rows, id, UpdatePatch(dto, pw)) && RowsValid(w.rows) &&
      StoredById(w.rows, id) == Some(Patched(stored, UpdatePatch(dto, pw))) &&
      (Truthy(dto.password) ==> stored.password == Some(cfg.hash(dto.oldPassword.value))) &&
      w.cache.tracked == {} &&
      (up ==> forall k | k in w.cache.entries :: !StartsWith(k, NAMESPACE))
  {
    var stored := StoredById(rows, id).value;
    var pw := if Truthy(dto.password) then Some(cfg.hash(dto.password.value)) else dto.password;
    var p := UpdatePatch(dto, pw);
    assert !(p.email.Some? && EmailHeld(rows, p.email.value, Some(id)));
    PatchKeepsValid(rows, id, p);
    UpdatedRowIsFound(rows, id, p);
  }

  /** remove of an unknown id is NotFound; after a successful remove a second one is NotFound too. */
  lemma RemoveTwiceIsNotFound(cs: CacheState, rows: seq<User>, id: string, up: bool, up2: bool)
    ensures UserRepo.FindOne(rows, id).None? ==>
      RemoveStep(cs, rows, id, up) == Write(Failure(NotFound("User with id " + id + " not found")), cs, rows)
    ensures var w := RemoveStep(cs, rows, id, up);
      w.result.Success? ==>
        w.rows == WithoutId(rows, id) &&
        RemoveStep(w.cache, w.rows, id, up2).result == Failure(NotFound("User with id " + id + " not found"))
  {
    RemovedIdIsGone(rows, id);
  }

  // ---------------------------------------------------------------------------
  // The password comparison in update, as written
  // ---------------------------------------------------------------------------

  /**
   * update as written compares the old password with `user.password` of the
   * row `_userRepo.findOne` returned, a query that does not select the
   * password column.
   */
  function PasswordStepAsWritten(rows: seq<User>, id: string, dto: UpdateUserDto, cfg: Config): Result<Option<string>, Error>
    requires UserRepo.FindOne(rows, id).Some?
  {
    PasswordStep(dto, UserRepo.FindOne(rows, id).value.password, cfg)
  }

  /** As written, every password change of an existing user fails with bcrypt's missing-argument error (a 500). */
  lemma AsWrittenPasswordChangeAlwaysCrashes(rows: seq<User>, id: string, dto: UpdateUserDto, cfg: Config)
    requires UserRepo.FindOne(rows, id).Some? && Truthy(dto.password) && Truthy(dto.oldPassword)
    ensures PasswordStepAsWritten(rows, id, dto, cfg) == Failure(Crash(BCRYPT_MISSING_ARGUMENT))
    ensures StatusOf(PasswordStepAsWritten(rows, id, dto, cfg).error) == INTERNAL_SERVER_ERROR
  {
  }

  /** Compared with the stored hash, the right old password lets the change through and yields the new hash. */
  lemma CorrectedPasswordChangeSucceeds(rows: seq<User>, id: string, dto: UpdateUserDto, cfg: Config)
    requires StoredById(rows, id).Some? && Truthy(dto.password) && Truthy(dto.oldPassword) && cfg.salt != ""
    requires StoredById(rows, id).value.password == Some(cfg.hash(dto.oldPassword.value))
    ensures PasswordStep(dto, StoredById(rows, id).value.password, cfg) == Success(Some(cfg.hash(dto.password.value)))
  {
  }

  // ---------------------------------------------------------------------------
  // Cache coherence
  // ---------------------------------------------------------------------------

  /** Every cached user under an id or email key is the presenter of what the repository answers for it. */
  ghost predicate Coherent(m: map<string, CacheEntry>, rows: seq<User>) {
    (forall id | IdKey(id) in m ::
       UserRepo.FindOne(rows, id).Some? && m[IdKey(id)] == CachedUser(Present(UserRepo.FindOne(rows, id).value))) &&
    (forall e | EmailKey(e) in m ::
       UserRepo.FindOneByEmail(rows, e).Some? && m[EmailKey(e)] == CachedUser(Present(UserRepo.FindOneByEmail(rows, e).value)))
  }

  /** The presenter the controllers hand out for a user read, whichever way it was served. */
  function ViewOf(s: Served<UserView, User>): UserView {
    match s
    case FromCache(v) => v
    case FromRepo(u) => Present(u)
  }

  /** On a coherent cache, findOne answers what the repository holds: NotFound exactly when it has no such user. */
  lemma CoherentFindOneAgreesWithRepo(cs: CacheState, rows: seq<User>, id: string, cfg: Config)
    requires WellTyped(cs.entries) && Coherent(cs.entries, rows)
    ensures var s := FindOneStep(cs, rows, id, true, cfg);
      (s.result.Failure? <==> UserRepo.FindOne(rows, id).None?) &&
      (s.result.Success? ==> ViewOf(s.result.value) == Present(UserRepo.FindOne(rows, id).value))
  {
  }

  /** On a coherent cache, findOneByEmail answers what the repository holds. */
  lemma CoherentFindOneByEmailAgreesWithRepo(cs: CacheState, rows: seq<User>, email: string, up: bool, cfg: Config)
    requires WellTyped(cs.entries) && Coherent(cs.entries, rows)
    ensures var s := FindOneByEmailStep(cs, rows, email, up, cfg);
      (s.result.None? <==> UserRepo.FindOneByEmail(rows, email).None?) &&
      (s.result.Some? ==> ViewOf(s.result.value) == Present(UserRepo.FindOneByEmail(rows, email).value))
  {
  }

  /** Dropping entries keeps a cache coherent. */
  lemma CoherentSubset(m: map<string, CacheEntry>, n: map<string, CacheEntry>, rows: seq<User>)
    requires Coherent(m, rows)
    requires forall k | k in n :: k in m && n[k] == m[k]
    ensures Coherent(n, rows)
  {
  }

  /** Caching a user the repository answers for a key keeps the cache coherent. */
  lemma CacheLoadedKeepsCoherent(cs: CacheState, rows: seq<User>, id: string, email: string, cfg: Config)
    requires Coherent(cs.entries, rows)
    ensures UserRepo.FindOne(rows, id).Some? ==>
      Coherent(AfterSetCachedUser(cs, IdKey(id), UserRepo.FindOne(rows, id).value, cfg.jsonLength).entries, rows)
    ensures UserRepo.FindOneByEmail(rows, email).Some? ==>
      Coherent(AfterSetCachedUser(cs, EmailKey(email), UserRepo.FindOneByEmail(rows, email).value, cfg.jsonLength).entries, rows)
  {
    forall x: string
      ensures IdKey(x) != EmailKey(email) && EmailKey(x) != IdKey(id)
    {
      KeyFamiliesDisjoint(x, email, "");
      KeyFamiliesDisjoint(id, x, "");
    }
  }

  /** The reads keep a coherent cache coherent. */
  lemma ReadsKeepCoherent(cs: CacheState, rows: seq<User>, id: string, email: string, q: Filter, up: bool, cfg: Config)
    requires WellTyped(cs.entries) && Coherent(cs.entries, rows)
    ensures Coherent(FindOneStep(cs, rows, id, up, cfg).cache.entries, rows)
    ensures Coherent(FindOneByEmailStep(cs, rows, email, up, cfg).cache.entries, rows)
    ensures Coherent(FindAllStep(cs, rows, q, up, cfg).cache.entries, rows)
  {
    CacheLoadedKeepsCoherent(cs, rows, id, email, cfg);
    var json := cfg.stringify(q);
    forall x: string
      ensures IdKey(x) != ListKey(json) && EmailKey(x) != ListKey(json)
    {
      KeyFamiliesDisjoint(x, x, json);
    }
  }

  /** create keeps the cache coherent whether or not the store answers: it only appends, and only drops keys. */
  lemma CreateKeepsCoherent(cs: CacheState, rows: seq<User>, dto: CreateUserDto, up: bool, cfg: Config, newId: string, now: int)
    requires WellTyped(cs.entries) && Coherent(cs.entries, rows)
    ensures var w := CreateStep(cs, rows, dto, up, cfg, newId, now);
      Coherent(w.cache.entries, w.rows)
  {
    CacheLoadedKeepsCoherent(cs, rows, newId, dto.email, cfg);
    var w := CreateStep(cs, rows, dto, up, cfg, newId, now);
    if w.result.Success? {
      var u := w.result.value;
      InvalidateUserRemovesItsKeys(cs, rows + [u], newId);
      assert forall k | k in w.cache.entries :: k in cs.entries && w.cache.entries[k] == cs.entries[k];
      forall id | IdKey(id) in w.cache.entries
        ensures UserRepo.FindOne(w.rows, id) == UserRepo.FindOne(rows, id)
      {
        AppendKeepsLookups(rows, u, id, "");
      }
      forall e | EmailKey(e) in w.cache.entries
        ensures UserRepo.FindOneByEmail(w.rows, e) == UserRepo.FindOneByEmail(rows, e)
      {
        AppendKeepsLookups(rows, u, "", e);
      }
    }
  }

  /** On a store that answers, update keeps the cache coherent: a failure only drops a key, a success clears the namespace. */
  lemma UpdateKeepsCoherent(cs: CacheState, rows: seq<User>, id: string, dto: UpdateUserDto, cfg: Config)
    requires Coherent(cs.entries, rows)
    ensures var w := UpdateStep(cs, rows, id, dto, true, cfg);
      Coherent(w.cache.entries, w.rows)
  {
    InvalidateAllRemovesEveryServiceKey(cs);
    var user := UserRepo.FindOne(rows, id);
    if user.Some? && EmailChanges(dto, user.value) {
      var cs1 := cs.(entries := cs.entries - {EmailKey(user.value.email)});
      CoherentSubset(cs.entries, cs1.entries, rows);
      InvalidateAllRemovesEveryServiceKey(cs1);
    }
  }

  /** On a store that answers, remove keeps the cache coherent. */
  lemma RemoveKeepsCoherent(cs: CacheState, rows: seq<User>, id: string)
    requires Coherent(cs.entries, rows)
    ensures var w := RemoveStep(cs, rows, id, true);
      Coherent(w.cache.entries, w.rows)
  {
    InvalidateAllRemovesEveryServiceKey(cs);
  }

  /**
   * The invalidators swallow a failing store, so a remove made while it is
   * down leaves the user's cached presenter behind: once the store answers
   * again findOne serves the deleted user from the cache.
   */
  lemma RemoveWhileStoreDownLeavesStaleEntry(cs: CacheState, rows: seq<User>, id: string, cfg: Config)
    requires WellTyped(cs.entries) && Coherent(cs.entries, rows) && IdKey(id) in cs.entries
    ensures var w := RemoveStep(cs, rows, id, false);
      w.result.Success? && WellTyped(w.cache.entries) && UserRepo.FindOne(w.rows, id).None? &&
      FindOneStep(w.cache, w.rows, id, true, cfg).result.Success? &&
      !Coherent(w.cache.entries, w.rows)
  {
    RemovedIdIsGone(rows, id);
  }

  // ---------------------------------------------------------------------------
  // The service object
  // ---------------------------------------------------------------------------

  /**
   * UserService over its repository and its cache. `entries` is the store,
   * `trackedKeys` the service's `userCacheKeys`; each method performs the
   * source's steps in order and ends in the state its step function gives.
   */
  class UserService {
    const repo: Repo
    const cfg: Config
    var entries: map<string, CacheEntry>
    var trackedKeys: set<string>

    function State(): CacheState
      reads this
    {
      CacheState(entries, trackedKeys)
    }

    predicate Valid()
      reads this, repo
    {
      repo.Valid() && WellTyped(entries)
    }

    constructor(repo: Repo, cfg: Config)
      requires repo.Valid()
      ensures Valid() && this.repo == repo && this.cfg == cfg
      ensures entries == map[] && trackedKeys == {}
    {
      this.repo := repo;
      this.cfg := cfg;
      entries := map[];
      trackedKeys := {};
    }

    /** setCachedUser on a store that answers. */
    method SetCachedUser(key: string, u: User)
      requires WellTyped(entries) && !StartsWith(key, LIST_PREFIX)
      modifies this
      ensures WellTyped(entries)
      ensures State() == AfterSetCachedUser(old(State()), key, u, cfg.jsonLength)
    {
      if cfg.jsonLength(u) < MAX_CACHED_SIZE {
        entries := entries[key := CachedUser(Present(u))];
        trackedKeys := trackedKeys + {key};
      }
    }

    /** clearCacheByPattern: collect the keys with the prefix and delete them one by one. */
    method ClearCacheByPattern(pattern: string, up: bool)
      requires WellTyped(entries)
      modifies this
      ensures WellTyped(entries)
      ensures State() == AfterClearByPattern(old(State()), pattern, up)
    {
      if !up {
        return;
      }
      var matching := set k | k in entries && StartsWith(k, pattern);
      ghost var all := matching;
      while matching != {}
        invariant matching <= all && trackedKeys == old(trackedKeys)
        invariant entries == old(entries) - (all - matching)
        invariant all == set k | k in old(entries) && StartsWith(k, pattern)
        decreases matching
      {
        var k :| k in matching;
        entries := entries - {k};
        matching := matching - {k};
      }
      assert entries == WithoutPrefix(old(entries), pattern);
    }

    /** invalidateUserCache: the id key, the user's email key, the list keys, then the tracked set. */
    method InvalidateUserCache(id: string, up: bool)
      requires WellTyped(entries)
      modifies this
      ensures WellTyped(entries)
      ensures State() == AfterInvalidateUser(old(State()), repo.rows, id, up)
    {
      if !up {
        // the first delete throws; the error is logged
        return;
      }
      entries := entries - {IdKey(id)};
      var user := UserRepo.FindOne(repo.rows, id);
      if user.Some? && user.value.email != "" {
        entries := entries - {EmailKey(user.value.email)};
      }
      ClearCacheByPattern(LIST_PREFIX, true);
      trackedKeys := {};
    }

    /** invalidateAllUserCache: every key of the namespace, then the tracked set. */
    method InvalidateAllUserCache(up: bool)
      requires WellTyped(entries)
      modifies this
      ensures WellTyped(entries)
      ensures State() == AfterInvalidateAll(old(State()), up)
    {
      ClearCacheByPattern(NAMESPACE, up);
      trackedKeys := {};
    }

    method FindOne(id: string, up: bool) returns (r: Result<Served<UserView, User>, Error>)
      requires Valid()
      modifies this
      ensures Valid()
      ensures Step(r, State()) == FindOneStep(old(State()), repo.rows, id, up, cfg)
    {
      if !up {
        return Failure(Crash(CACHE_DOWN));
      }
      var key := IdKey(id);
      KeyFamiliesDisjoint(id, "", "");
      if key in entries {
        return Success(FromCache(entries[key].view));
      }
      var user := UserRepo.FindOne(repo.rows, id);
      if user.None? {
        return Failure(NotFound("User with id " + id + " not found"));
      }
      SetCachedUser(key, user.value);
      return Success(FromRepo(user.value));
    }

    method FindOneByEmail(email: string, up: bool) returns (r: Option<Served<UserView, User>>)
      requires Valid()
      modifies this
      ensures Valid()
      ensures Step(r, State()) == FindOneByEmailStep(old(State()), repo.rows, email, up, cfg)
    {
      var key := EmailKey(email);
      KeyFamiliesDisjoint("", email, "");
      if up && key in entries {
        return Some(FromCache(entries[key].view));
      }
      // a failing read is logged and the repository answers
      var user := UserRepo.FindOneByEmail(repo.rows, email);
      if user.None? {
        return None;
      }
      if up {
        SetCachedUser(key, user.value);
      }
      return Some(FromRepo(user.value));
    }

    method FindAll(q: Filter, up: bool) returns (r: Result<Served<Page<UserView>, Page<User>>, Error>)
      requires Valid()
      modifies this
      ensures Valid()
      ensures Step(r, State()) == FindAllStep(old(State()), repo.rows, q, up, cfg)
    {
      var key := ListKey(cfg.stringify(q));
      if !up {
        return Failure(Crash(CACHE_DOWN));
      }
      if key in entries {
        return Success(FromCache(entries[key].page));
      }
      var users := UserRepo.FindAll(repo.rows, q);
      entries := entries[key := CachedPage(PresentPage(users))];
      trackedKeys := trackedKeys + {key};
      return Success(FromRepo(users));
    }

    method Create(dto: CreateUserDto, up: bool, newId: string, now: int) returns (r: Result<User, Error>)
      requires Valid() && FreshId(repo.rows, newId)
      modifies this, repo
      ensures Valid()
      ensures Write(r, State(), repo.rows) == CreateStep(old(State()), old(repo.rows), dto, up, cfg, newId, now)
    {
      if dto.role == Some(SUPERADMIN) {
        return Failure(BadRequest("Can't Create User with role " + RoleName(SUPERADMIN)));
      }
      var user := FindOneByEmail(dto.email, up);
      if user.Some? {
        return Failure(Conflict("User with email " + dto.email + " already exists"));
      }
      var hashed := HashPassword(cfg, dto.password);
      if hashed.Failure? {
        return Failure(hashed.error);
      }
      var created := repo.Create(dto.(password := hashed.value), newId, now);
      if created.Failure? {
        return Failure(created.error);
      }
      InvalidateUserCache(created.value.id, up);
      return Success(created.value);
    }

    method Update(id: string, dto: UpdateUserDto, up: bool) returns (r: Result<User, Error>)
      requires Valid()
      modifies this, repo
      ensures Valid()
      ensures Write(r, State(), repo.rows) == UpdateStep(old(State()), old(repo.rows), id, dto, up, cfg)
    {
      var user := UserRepo.FindOne(repo.rows, id);
      if user.None? {
        return Failure(NotFound("User with id " + id + " not found"));
      }
      if Truthy(dto.email) {
        var userExist := UserRepo.FindOneByEmail(repo.rows, dto.email.value);
        if userExist.Some? {
          return Failure(Conflict("User with email " + dto.email.value + " already exists"));
        }
      }
      if Truthy(dto.email) && user.value.email != dto.email.value {
        if !up {
          return Failure(Crash(CACHE_DOWN));
        }
        entries := entries - {EmailKey(user.value.email)};
      }
      var password := dto.password;
      if Truthy(dto.password) {
        if !Truthy(dto.oldPassword) {
          return Failure(BadRequest("Old password is required"));
        }
        var stored := StoredById(repo.rows, id).value.password;
        if stored.None? {
          return Failure(Crash(BCRYPT_MISSING_ARGUMENT));
        }
        if !Compare(cfg.hash, dto.oldPassword.value, stored.value) {
          return Failure(BadRequest("Passwords do not match"));
        }
        var hashed := HashPassword(cfg, dto.password.value);
        if hashed.Failure? {
          return Failure(hashed.error);
        }
        password := Some(hashed.value);
      }
      var updated := repo.Update(id, UpdatePatch(dto, password));
      if updated.Failure? {
        return Failure(updated.error);
      }
      InvalidateAllUserCache(up);
      return Success(updated.value);
    }

    method Remove(id: string, up: bool) returns (r: Result<(), Error>)
      requires Valid()
      modifies this, repo
      ensures Valid()
      ensures Write(r, State(), repo.rows) == RemoveStep(old(State()), old(repo.rows), id, up)
    {
      var user := UserRepo.FindOne(repo.rows, id);
      if user.None? {
        return Failure(NotFound("User with id " + id + " not found"));
      }
      repo.Remove(id);
      InvalidateAllUserCache(up);
      return Success(());
    }
  }
}
