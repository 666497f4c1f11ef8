/**
 * The entities and shared shapes of the user/auth request path: the role
 * enumeration, the `User` row, its presenter projection, the JWT-derived
 * request identity, the errors the services throw, the pagination meta block
 * and the success envelope the controllers return.
 */
module Domain {
  import opened Wrappers

  /** RoleEnum; the database enum type holds exactly these three values. */
  datatype Role = SUPERADMIN | ADMIN | USER

  /** The string value of each enum member, as stored and as carried in tokens. */
  function RoleName(r: Role): (s: string)
    ensures ParseRole(s) == Some(r)
    ensures s != ""
  {
    match r
    case SUPERADMIN => "superadmin"
    case ADMIN => "admin"
    case USER => "user"
  }

  /** The enum member whose value is `s`, if any (class-validator's `IsEnum(RoleEnum)`). */
  function ParseRole(s: string): (r: Option<Role>)
    ensures r.Some? <==> s == "superadmin" || s == "admin" || s == "user"
  {
    if s == "superadmin" then Some(SUPERADMIN)
    else if s == "admin" then Some(ADMIN)
    else if s == "user" then Some(USER)
    else None
  }

  /** ParseRole and RoleName are inverse: an accepted string is the name of the role it parses to. */
  lemma ParseRoleInverse(s: string)
    ensures ParseRole(s).Some? ==> RoleName(ParseRole(s).value) == s
  {
  }

  // HTTP status codes used on this path (Nest's HttpStatus).
  const OK := 200
  const CREATED := 201
  const NO_CONTENT := 204
  const BAD_REQUEST := 400
  const UNAUTHORIZED := 401
  const FORBIDDEN := 403
  const NOT_FOUND := 404
  const CONFLICT := 409
  const INTERNAL_SERVER_ERROR := 500

  /** What a request handler can throw. */
  datatype Error =
    | HttpError(status: int, message: string)  // a Nest HttpException: answered with its own status
    | Crash(reason: string)                    // any other thrown Error: Nest answers 500

  /** The HTTP status Nest's exception layer answers for an error. */
  function StatusOf(e: Error): (status: int)
    ensures e.Crash? ==> status == INTERNAL_SERVER_ERROR
  {
    match e
    case HttpError(status, _) => status
    case Crash(_) => INTERNAL_SERVER_ERROR
  }

  function BadRequest(message: string): Error { HttpError(BAD_REQUEST, message) }
  function Unauthorized(message: string): Error { HttpError(UNAUTHORIZED, message) }
  function Forbidden(message: string): Error { HttpError(FORBIDDEN, message) }
  function NotFound(message: string): Error { HttpError(NOT_FOUND, message) }
  function Conflict(message: string): Error { HttpError(CONFLICT, message) }

  /**
   * A row of the `user` table as TypeORM hands it out. `password` is `None`
   * when the query did not select that column (it is `select: false`); the
   * stored column itself is NOT NULL. Timestamps are abstract integers.
   */
  datatype User = User(
    id: string,
    name: string,
    email: string,
    password: Option<string>,
    role: Role,
    gender: Option<string>,
    age: Option<int>,
    bio: Option<string>,
    photo: Option<string>,
    createdAt: int,
    deletedAt: Option<int>)

  /** A row that is not soft-deleted (`deletedAt IS NULL`). */
  predicate Live(u: User) {
    u.deletedAt.None?
  }

  /** The row as a query that does not select the password column returns it. */
  function Hide(u: User): User {
    u.(password := None)
  }

  /** UserPresenter: the exposed fields id, name, email and role, nothing else. */
  datatype UserView = UserView(id: string, name: string, email: string, role: Role)

  /** `plainToInstance(UserPresenter, user)`: the projection onto the exposed fields. */
  function Present(u: User): UserView {
    UserView(u.id, u.name, u.email, u.role)
  }

  /** The identity JwtStrategy.validate attaches to the request. */
  datatype AuthUser = AuthUser(id: string, email: string, role: string)

  /** JavaScript truthiness of an optional string: present and not empty. */
  predicate Truthy(s: Option<string>) {
    s.Some? && s.value != ""
  }

  /**
   * bcrypt under the service's salt, taken as a given one-way function:
   * `bcrypt.hash(p, salt) == digest(p)`.
   */
  type Digest = string -> string

  /** `bcrypt.compare(plain, hashed)`. */
  predicate Compare(digest: Digest, plain: string, hashed: string) {
    digest(plain) == hashed
  }

  /** MetaPresenter: the pagination block. */
  datatype Meta = Meta(page: int, limit: int, totalItems: int, totalPages: int)

  /** PaginationPresenter: a page of entities and its meta block (`None` is `meta: null`). */
  datatype Page<T> = Page(entities: seq<T>, meta: Option<Meta>)

  /** SuccessResponse: what a controller handler returns (`data` None is `null`). */
  datatype SuccessResponse<T> = SuccessResponse(data: Option<T>, message: string, statusCode: int, meta: Option<Meta>)
}
