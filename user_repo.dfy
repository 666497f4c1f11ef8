/**
 * UserRepo over the `user` table. The table is a sequence of rows; the
 * queries are functions of it, and the operations that write it are methods
 * of `Repo`, the class that owns it.
 *
 * What TypeORM adds to the repository's own code, and the model keeps:
 * queries skip soft-deleted rows (the entity has a DeleteDateColumn), the
 * `password` column is only returned where a query adds it (`select: false`),
 * ids are generated unique, and `email` carries a unique index.
 */
module UserRepo {
  import opened Wrappers
  import opened Text
  import opened Domain
  import opened SqlLike
  import opened UserDtos
  import opened BaseFilter

  // ---------------------------------------------------------------------------
  // The table and its invariant
  // ---------------------------------------------------------------------------

  /** Ids and emails are unique, and every stored row carries its password hash. */
  predicate RowsValid(rows: seq<User>) {
    (forall i, j | 0 <= i < j < |rows| :: rows[i].id != rows[j].id && rows[i].email != rows[j].email) &&
    (forall i | 0 <= i < |rows| :: rows[i].password.Some?)
  }

  /** No row, deleted or not, has this id. */
  predicate FreshId(rows: seq<User>, id: string) {
    forall i | 0 <= i < |rows| :: rows[i].id != id
  }

  /** Some row other than the one with id `except` (if given) holds `email`; the unique index counts deleted rows too. */
  predicate EmailHeld(rows: seq<User>, email: string, except: Option<string>) {
    exists i | 0 <= i < |rows| :: rows[i].email == email && (except.None? || rows[i].id != except.value)
  }

  /** The error a write that breaks the unique email index fails with. */
  const UNIQUE_VIOLATION := "duplicate key value violates unique constraint"

  // ---------------------------------------------------------------------------
  // findAll: search, order, pagination
  // ---------------------------------------------------------------------------

  /** The search condition: no condition unless `search` is truthy, else `email ILIKE '%s%' OR name ILIKE '%s%'`. */
  predicate MatchesSearch(u: User, search: Option<string>) {
    !Truthy(search) ||
    ILike(SubstringPattern(search.value), u.email) || ILike(SubstringPattern(search.value), u.name)
  }

  /** The rows the query selects: not soft-deleted, and matching the search. */
  predicate Selected(u: User, search: Option<string>) {
    Live(u) && MatchesSearch(u, search)
  }

  /** The selected rows in table order. */
  function Matching(rows: seq<User>, search: Option<string>): (r: seq<User>)
    ensures forall u :: u in r <==> u in rows && Selected(u, search)
    ensures |r| <= |rows|
  {
    if rows == [] then []
    else (if Selected(rows[0], search) then [rows[0]] else []) + Matching(rows[1..], search)
  }

  /** The selection keeps each selected row as often as the table holds it, and no other row. */
  lemma {:induction false} MatchingCounts(rows: seq<User>, search: Option<string>)
    ensures forall u :: multiset(Matching(rows, search))[u] == (if Selected(u, search) then multiset(rows)[u] else 0)
    decreases |rows|
  {
    if rows != [] {
      MatchingCounts(rows[1..], search);
      assert rows == [rows[0]] + rows[1..];
    }
  }

  /** For a term without pattern characters, a row matches iff the term is a case-insensitive substring of its email or name. */
  lemma SearchIsSubstringOfEmailOrName(u: User, term: string)
    requires term != "" && Plain(term)
    ensures MatchesSearch(u, Some(term)) <==>
      Contains(Lower(u.email), Lower(term)) || Contains(Lower(u.name), Lower(term))
  {
    SearchIsSubstring(term, u.email);
    SearchIsSubstring(term, u.name);
  }

  /** Without a truthy search, every row that is not soft-deleted is selected. */
  lemma NoSearchSelectsAllLive(rows: seq<User>, search: Option<string>)
    requires !Truthy(search)
    ensures forall u :: u in Matching(rows, search) <==> u in rows && Live(u)
  {
  }

  /** `orderBy('user.createdAt', 'DESC')`. */
  predicate SortedByNewest(s: seq<User>) {
    forall i, j | 0 <= i < j < |s| :: s[i].createdAt >= s[j].createdAt
  }

  function InsertByNewest(u: User, s: seq<User>): seq<User> {
    if s == [] then [u]
    else if u.createdAt >= s[0].createdAt then [u] + s
    else [s[0]] + InsertByNewest(u, s[1..])
  }

  /** Putting a row that is not newer than any of `rest` in front of a sorted `rest` keeps it sorted. */
  lemma ConsSorted(x: User, rest: seq<User>)
    requires SortedByNewest(rest)
    requires forall k | 0 <= k < |rest| :: rest[k].createdAt <= x.createdAt
    ensures SortedByNewest([x] + rest)
  {
    var r := [x] + rest;
    forall i, j | 0 <= i < j < |r| ensures r[i].createdAt >= r[j].createdAt {
      assert r[j] == rest[j - 1];
      if i > 0 {
        assert r[i] == rest[i - 1];
      }
    }
  }

  lemma TailSorted(s: seq<User>)
    requires s != [] && SortedByNewest(s)
    ensures SortedByNewest(s[1..])
  {
    assert forall k | 0 <= k < |s[1..]| :: s[1..][k] == s[k + 1];
  }

  /** Insertion into a sorted sequence keeps it sorted and adds exactly the new row. */
  lemma {:induction false} InsertByNewestSpec(u: User, s: seq<User>)
    requires SortedByNewest(s)
    ensures SortedByNewest(InsertByNewest(u, s))
    ensures multiset(InsertByNewest(u, s)) == multiset(s) + multiset{u}
    decreases |s|
  {
    if s == [] {
    } else if u.createdAt >= s[0].createdAt {
      ConsSorted(u, s);
    } else {
      TailSorted(s);
      InsertByNewestSpec(u, s[1..]);
      var rest := InsertByNewest(u, s[1..]);
      assert s == [s[0]] + s[1..];
      forall k | 0 <= k < |rest| ensures rest[k].createdAt <= s[0].createdAt {
        assert rest[k] in multiset(rest);
        if rest[k] != u {
          assert rest[k] in s[1..];
        }
      }
      ConsSorted(s[0], rest);
    }
  }

  /** The rows in query order, newest first (ties in `createdAt` come out in an order the model fixes). */
  function SortByNewest(s: seq<User>): seq<User> {
    if s == [] then [] else InsertByNewest(s[0], SortByNewest(s[1..]))
  }

  /** The query order is sorted by `createdAt` descending and holds exactly the rows it was given. */
  lemma {:induction false} SortByNewestSpec(s: seq<User>)
    ensures SortedByNewest(SortByNewest(s))
    ensures multiset(SortByNewest(s)) == multiset(s)
    decreases |s|
  {
    if s != [] {
      SortByNewestSpec(s[1..]);
      InsertByNewestSpec(s[0], SortByNewest(s[1..]));
      assert s == [s[0]] + s[1..];
    }
  }

  /** Rows as a query without `addSelect('user.password')` returns them. */
  function HideAll(s: seq<User>): (r: seq<User>)
    ensures |r| == |s|
    ensures forall i | 0 <= i < |s| :: r[i] == Hide(s[i])
  {
    seq(|s|, i requires 0 <= i < |s| => Hide(s[i]))
  }

  /** Every selected row, newest first, without the password column. */
  function Listed(rows: seq<User>, search: Option<string>): (r: seq<User>)
    ensures |r| == |Matching(rows, search)|
  {
    SortByNewestSpec(Matching(rows, search));
    assert |SortByNewest(Matching(rows, search))| == |multiset(Matching(rows, search))|;
    HideAll(SortByNewest(Matching(rows, search)))
  }

  /** `query.limit && query.limit > 0 ? query.limit : 10`. */
  function EffectiveLimit(limit: Option<int>): (l: int)
    ensures l >= 1
    ensures limit.Some? && limit.value > 0 ==> l == limit.value
    ensures !(limit.Some? && limit.value > 0) ==> l == DEFAULT_LIMIT
  {
    if limit.Some? && limit.value > 0 then limit.value else DEFAULT_LIMIT
  }

  /** `query.page && query.page >= 1 ? query.page : 1`. */
  function EffectivePage(page: Option<int>): (p: int)
    ensures p >= 1
    ensures page.Some? && page.value >= 1 ==> p == page.value
    ensures !(page.Some? && page.value >= 1) ==> p == DEFAULT_PAGE
  {
    if page.Some? && page.value >= 1 then page.value else DEFAULT_PAGE
  }

  function Min(a: int, b: int): int {
    if a <= b then a else b
  }

  /** `skip(skip).take(take)`: at most `take` consecutive elements starting at `skip`. */
  function Window<T>(s: seq<T>, skip: nat, take: nat): (r: seq<T>)
    ensures |r| == (if skip >= |s| then 0 else Min(take, |s| - skip))
    ensures forall i | 0 <= i < |r| :: r[i] == s[skip + i]
  {
    if skip >= |s| then [] else s[skip..Min(skip + take, |s|)]
  }

  /** `Math.ceil(n / d)` for a positive divisor. */
  function CeilDiv(n: nat, d: nat): (q: nat)
    requires d > 0
  {
    (n + d - 1) / d
  }

  /** CeilDiv is the least number of blocks of size `d` that cover `n`. */
  lemma CeilDivIsLeastCover(n: nat, d: nat)
    requires d > 0
    ensures CeilDiv(n, d) * d >= n
    ensures CeilDiv(n, d) > 0 ==> (CeilDiv(n, d) - 1) * d < n
    ensures CeilDiv(n, d) == 0 <==> n == 0
  {
    var q := CeilDiv(n, d);
    var m := (n + d - 1) % d;
    assert n + d - 1 == q * d + m;
    assert 0 <= m < d;
    if q > 0 {
      assert (q - 1) * d == q * d - d;
    }
  }

  /** `skip = (page - 1) * limit`: where page `page` starts. */
  function PageStart(page: int, limit: int): (skip: nat)
    requires page >= 1 && limit >= 1
  {
    (page - 1) * limit
  }

  /** UserRepo.findAll. */
  function FindAll(rows: seq<User>, f: Filter): (r: Page<User>)
    ensures forall i | 0 <= i < |r.entities| :: r.entities[i].password.None?
  {
    var listed := Listed(rows, f.search);
    if !f.isPagination then Page(listed, None)
    else
      var limit := EffectiveLimit(f.limit);
      var page := EffectivePage(f.page);
      Page(Window(listed, PageStart(page, limit), limit),
           Some(Meta(page, limit, |listed|, CeilDiv(|listed|, limit))))
  }

  /** Without pagination: every selected row exactly once, newest first, and `meta: null`. */
  lemma FindAllWithoutPagination(rows: seq<User>, f: Filter)
    requires !f.isPagination
    ensures FindAll(rows, f).meta.None?
    ensures FindAll(rows, f).entities == HideAll(SortByNewest(Matching(rows, f.search)))
    ensures SortedByNewest(SortByNewest(Matching(rows, f.search)))
    ensures multiset(SortByNewest(Matching(rows, f.search))) == multiset(Matching(rows, f.search))
  {
    SortByNewestSpec(Matching(rows, f.search));
  }

  /**
   * With pagination: the entities are the `limit` rows (fewer on the last
   * page, none past it) that start at `(page-1)*limit` in the ordered
   * selection, and meta counts the whole selection.
   */
  lemma FindAllWithPagination(rows: seq<User>, f: Filter)
    requires f.isPagination
    ensures var limit := EffectiveLimit(f.limit);
      var n := |Matching(rows, f.search)|;
      FindAll(rows, f).meta == Some(Meta(EffectivePage(f.page), limit, n, CeilDiv(n, limit)))
    ensures var skip := PageStart(EffectivePage(f.page), EffectiveLimit(f.limit));
      var n := |Matching(rows, f.search)|;
      |FindAll(rows, f).entities| == (if skip >= n then 0 else Min(EffectiveLimit(f.limit), n - skip))
    ensures var skip := PageStart(EffectivePage(f.page), EffectiveLimit(f.limit));
      var r := FindAll(rows, f);
      forall i | 0 <= i < |r.entities| :: r.entities[i] == Listed(rows, f.search)[skip + i]
  {
    var listed := Listed(rows, f.search);
    var n := |Matching(rows, f.search)|;
    var limit := EffectiveLimit(f.limit);
    var page := EffectivePage(f.page);
    var skip := PageStart(page, limit);
    var w := Window(listed, skip, limit);
    assert |listed| == n;
    assert FindAll(rows, f) == Page(w, Some(Meta(page, limit, n, CeilDiv(n, limit))));
  }

  /** `totalItems` does not depend on the page asked for. */
  lemma TotalItemsIgnoresPage(rows: seq<User>, f: Filter, page: Option<int>)
    requires f.isPagination
    ensures FindAll(rows, f).meta.value.totalItems == FindAll(rows, f.(page := page)).meta.value.totalItems
  {
  }

  /** `totalPages` is 0 exactly when nothing matches. */
  lemma NoPagesIffNoMatches(rows: seq<User>, f: Filter)
    requires f.isPagination
    ensures FindAll(rows, f).meta.value.totalPages == 0 <==> FindAll(rows, f).meta.value.totalItems == 0
  {
    CeilDivIsLeastCover(|Matching(rows, f.search)|, EffectiveLimit(f.limit));
  }

  lemma MulMonotone(a: int, b: int, c: nat)
    requires a <= b
    ensures a * c <= b * c
  {
  }

  /** The window of page `page` starts inside the `n` rows exactly when `page <= ceil(n / limit)`. */
  lemma PageStartsInside(n: nat, limit: nat, page: int)
    requires limit >= 1 && page >= 1
    ensures (page - 1) * limit < n <==> page <= CeilDiv(n, limit)
  {
    var q := CeilDiv(n, limit);
    CeilDivIsLeastCover(n, limit);
    if page <= q {
      MulMonotone(page - 1, q - 1, limit);
    } else {
      MulMonotone(q, page - 1, limit);
    }
  }

  /** A page up to `totalPages` is never empty, and every page after it is. */
  lemma PagesUpToTotalAreNonEmpty(rows: seq<User>, f: Filter)
    requires f.isPagination
    ensures var m := FindAll(rows, f).meta.value;
      FindAll(rows, f).entities != [] <==> m.page <= m.totalPages
  {
    var listed := Listed(rows, f.search);
    var limit := EffectiveLimit(f.limit);
    var page := EffectivePage(f.page);
    PageStartsInside(|listed|, limit, page);
    var w := Window(listed, PageStart(page, limit), limit);
    assert FindAll(rows, f).entities == w;
    assert FindAll(rows, f).meta.value.totalPages == CeilDiv(|listed|, limit);
  }

  /** 25 matching rows at limit 10: page 3 holds the last 5 rows, and there are 3 pages. */
  lemma TwentyFiveRowsAtLimitTen(rows: seq<User>, f: Filter)
    requires f.isPagination && f.limit == Some(10) && f.page == Some(3)
    requires |Matching(rows, f.search)| == 25
    ensures |FindAll(rows, f).entities| == 5
    ensures FindAll(rows, f).meta == Some(Meta(3, 10, 25, 3))
  {
    FindAllWithPagination(rows, f);
    assert CeilDiv(25, 10) == 3;
  }

  /** On a filter the ValidationPipe produced, the repository's own fallbacks never apply. */
  lemma ValidatedFilterKeepsItsPaging(q: FilterQuery)
    requires NormalizeFilter(q).Success?
    ensures var f := NormalizeFilter(q).value;
      EffectiveLimit(f.limit) == f.limit.value && EffectivePage(f.page) == f.page.value
  {
  }

  // ---------------------------------------------------------------------------
  // findOne / findOneByEmail
  // ---------------------------------------------------------------------------

  /** What a single-row lookup matches on: the primary key or the unique email. */
  datatype Lookup = ById(id: string) | ByEmail(email: string)

  predicate Hits(u: User, k: Lookup) {
    match k
    case ById(id) => u.id == id
    case ByEmail(email) => u.email == email
  }

  /** The first row that is not soft-deleted and matches the lookup, password included. */
  function FirstLive(rows: seq<User>, k: Lookup): (r: Option<User>)
    ensures r.Some? <==> exists i | 0 <= i < |rows| :: Hits(rows[i], k) && Live(rows[i])
    ensures r.Some? ==> r.value in rows && Hits(r.value, k) && Live(r.value)
  {
    if rows == [] then None
    else if Hits(rows[0], k) && Live(rows[0]) then Some(rows[0])
    else
      var r := FirstLive(rows[1..], k);
      assert forall i | 1 <= i < |rows| :: rows[i] == rows[1..][i - 1];
      r
  }

  /** The stored row with this id that is not soft-deleted, password included. */
  function StoredById(rows: seq<User>, id: string): (r: Option<User>)
    ensures r.Some? <==> exists i | 0 <= i < |rows| :: rows[i].id == id && Live(rows[i])
    ensures r.Some? ==> r.value in rows && r.value.id == id && Live(r.value)
  {
    FirstLive(rows, ById(id))
  }

  /** UserRepo.findOne: `findOneBy({ id })`, which neither returns soft-deleted rows nor the password. */
  function FindOne(rows: seq<User>, id: string): (r: Option<User>)
    ensures r.Some? <==> exists i | 0 <= i < |rows| :: rows[i].id == id && Live(rows[i])
    ensures r.Some? ==> r.value.password.None? && r.value.id == id && Live(r.value)
    ensures r.Some? ==> exists i | 0 <= i < |rows| :: rows[i].id == id && r.value == Hide(rows[i])
  {
    if StoredById(rows, id).Some? then Some(Hide(StoredById(rows, id).value)) else None
  }

  /** UserRepo.findOneByEmail: exact `=` on email, `deletedAt IS NULL`, password added to the selection. */
  function FindOneByEmail(rows: seq<User>, email: string): (r: Option<User>)
    ensures r.Some? <==> exists i | 0 <= i < |rows| :: rows[i].email == email && Live(rows[i])
    ensures r.Some? ==> r.value in rows && r.value.email == email && Live(r.value)
  {
    FirstLive(rows, ByEmail(email))
  }

  /** In a valid table the row found by email is the only row with that email, and it carries its hash. */
  lemma FoundByEmailIsTheRow(rows: seq<User>, email: string, i: int)
    requires RowsValid(rows) && 0 <= i < |rows| && rows[i].email == email && Live(rows[i])
    ensures FindOneByEmail(rows, email) == Some(rows[i])
    ensures rows[i].password.Some?
  {
  }

  // ---------------------------------------------------------------------------
  // create / update / updatePhoto / remove
  // ---------------------------------------------------------------------------

  /** `userRepository.create(dto)`: the DTO's fields, the column default USER for a missing role, generated id and timestamp. */
  function NewRow(dto: CreateUserDto, id: string, now: int): User {
    User(id, dto.name, dto.email, Some(dto.password), dto.role.GetOr(USER),
         None, None, None, None, now, None)
  }

  /** The outcome of `save` on the new row: violating the unique email index fails the INSERT. */
  function CreateOutcome(rows: seq<User>, dto: CreateUserDto, id: string, now: int): (r: Result<User, Error>)
    ensures r.Failure? <==> EmailHeld(rows, dto.email, None)
    ensures r.Failure? ==> r.error == Crash(UNIQUE_VIOLATION)
    ensures r.Success? ==>
      r.value.id == id && r.value.name == dto.name && r.value.email == dto.email &&
      r.value.password == Some(dto.password) && Live(r.value) &&
      r.value.role == (if dto.role.Some? then dto.role.value else USER)
  {
    if EmailHeld(rows, dto.email, None) then Failure(Crash(UNIQUE_VIOLATION)) else Success(NewRow(dto, id, now))
  }

  /** The fields an update writes: `{ ...user, ...dto }` keeps every field the patch does not give. */
  datatype UserPatch = UserPatch(
    name: Option<string>, email: Option<string>, password: Option<string>, role: Option<Role>, photo: Option<string>)

  function Patched(u: User, p: UserPatch): User {
    u.(name := p.name.GetOr(u.name), email := p.email.GetOr(u.email),
       password := if p.password.Some? then p.password else u.password,
       role := p.role.GetOr(u.role), photo := if p.photo.Some? then p.photo else u.photo)
  }

  /** A patch keeps the row's identity and the fields it does not name, and applying it twice is applying it once. */
  lemma PatchKeepsTheRest(u: User, p: UserPatch)
    ensures var v := Patched(u, p);
      v.id == u.id && v.createdAt == u.createdAt && v.deletedAt == u.deletedAt &&
      v.gender == u.gender && v.age == u.age && v.bio == u.bio &&
      (p.name.None? ==> v.name == u.name) && (p.email.None? ==> v.email == u.email) &&
      (p.password.None? ==> v.password == u.password) && (p.role.None? ==> v.role == u.role) &&
      (p.photo.None? ==> v.photo == u.photo)
    ensures Patched(Patched(u, p), p) == Patched(u, p)
  {
  }

  /** The table after `save` of the patched row with this id. */
  function UpdatedRows(rows: seq<User>, id: string, p: UserPatch): (r: seq<User>)
    ensures |r| == |rows|
    ensures forall i | 0 <= i < |rows| :: r[i] == (if rows[i].id == id then Patched(rows[i], p) else rows[i])
  {
    seq(|rows|, i requires 0 <= i < |rows| => if rows[i].id == id then Patched(rows[i], p) else rows[i])
  }

  /**
   * UserRepo.update for a row that exists: `save({ ...findOne(id), ...dto })`
   * answers the merged object (without the stored hash unless the patch sets
   * one), or fails on the unique email index.
   */
  function UpdateOutcome(rows: seq<User>, id: string, p: UserPatch): (r: Result<User, Error>)
    requires FindOne(rows, id).Some?
    ensures r.Failure? <==> p.email.Some? && EmailHeld(rows, p.email.value, Some(id))
    ensures r.Failure? ==> r.error == Crash(UNIQUE_VIOLATION)
    ensures r.Success? ==> r.value == Patched(FindOne(rows, id).value, p) && r.value.id == id
  {
    if p.email.Some? && EmailHeld(rows, p.email.value, Some(id)) then Failure(Crash(UNIQUE_VIOLATION))
    else Success(Patched(FindOne(rows, id).value, p))
  }

  /** The patch an UpdatePhotoDto makes. */
  function PhotoPatch(photo: Option<string>): (p: UserPatch)
    ensures p.name.None? && p.email.None? && p.password.None? && p.role.None? && p.photo == photo
  {
    UserPatch(None, None, None, None, photo)
  }

  /** `delete(id)`: the rows with this id are gone, deleted or not; all others stay in order. */
  function WithoutId(rows: seq<User>, id: string): (r: seq<User>)
    ensures forall u :: u in r <==> u in rows && u.id != id
    ensures |r| <= |rows|
  {
    if rows == [] then []
    else (if rows[0].id == id then [] else [rows[0]]) + WithoutId(rows[1..], id)
  }

  lemma TailValid(rows: seq<User>)
    requires rows != [] && RowsValid(rows)
    ensures RowsValid(rows[1..])
  {
    assert forall k | 0 <= k < |rows[1..]| :: rows[1..][k] == rows[k + 1];
  }

  /** A row with its hash whose id and email no row of `rest` has can go in front of a valid `rest`. */
  lemma ConsValid(x: User, rest: seq<User>)
    requires RowsValid(rest) && x.password.Some?
    requires forall k | 0 <= k < |rest| :: rest[k].id != x.id && rest[k].email != x.email
    ensures RowsValid([x] + rest)
  {
    var r := [x] + rest;
    forall i, j | 0 <= i < j < |r| ensures r[i].id != r[j].id && r[i].email != r[j].email {
      assert r[j] == rest[j - 1];
      if i > 0 {
        assert r[i] == rest[i - 1];
      }
    }
    assert forall i | 0 <= i < |r| :: r[i] == x || r[i] == rest[i - 1];
  }

  /** Removing rows keeps the table valid. */
  lemma {:induction false} WithoutIdKeepsValid(rows: seq<User>, id: string)
    requires RowsValid(rows)
    ensures RowsValid(WithoutId(rows, id))
    decreases |rows|
  {
    if rows != [] {
      TailValid(rows);
      WithoutIdKeepsValid(rows[1..], id);
      var rest := WithoutId(rows[1..], id);
      if rows[0].id != id {
        forall k | 0 <= k < |rest| ensures rest[k].id != rows[0].id && rest[k].email != rows[0].email {
          assert rest[k] in rows[1..];
          var m :| 0 <= m < |rows[1..]| && rows[1..][m] == rest[k];
          assert rows[m + 1] == rest[k];
        }
        ConsValid(rows[0], rest);
      }
    }
  }

  /** After `remove(id)` neither findOne nor the stored-row lookup finds the id. */
  lemma RemovedIdIsGone(rows: seq<User>, id: string)
    ensures StoredById(WithoutId(rows, id), id).None?
    ensures FindOne(WithoutId(rows, id), id).None?
  {
    var r := WithoutId(rows, id);
    forall i | 0 <= i < |r| ensures r[i].id != id {
      assert r[i] in r;
    }
  }

  /** A new row with a fresh id and a free email keeps the table valid, and findOne finds it. */
  lemma InsertKeepsValid(rows: seq<User>, dto: CreateUserDto, id: string, now: int)
    requires RowsValid(rows) && FreshId(rows, id) && !EmailHeld(rows, dto.email, None)
    ensures RowsValid(rows + [NewRow(dto, id, now)])
    ensures FindOne(rows + [NewRow(dto, id, now)], id) == Some(Hide(NewRow(dto, id, now)))
    ensures FindOneByEmail(rows + [NewRow(dto, id, now)], dto.email) == Some(NewRow(dto, id, now))
  {
    var t := rows + [NewRow(dto, id, now)];
    assert t[|rows|] == NewRow(dto, id, now);
  }

  /** Appending a row leaves a lookup that already finds a row as it was. */
  lemma {:induction false} AppendKeepsFirstLive(rows: seq<User>, x: User, k: Lookup)
    ensures FirstLive(rows, k).Some? ==> FirstLive(rows + [x], k) == FirstLive(rows, k)
  {
    if rows != [] {
      assert (rows + [x])[0] == rows[0];
      assert (rows + [x])[1..] == rows[1..] + [x];
      AppendKeepsFirstLive(rows[1..], x, k);
    }
  }

  /** Appending a row leaves every lookup that already finds a row as it was. */
  lemma AppendKeepsLookups(rows: seq<User>, x: User, id: string, email: string)
    ensures StoredById(rows, id).Some? ==> StoredById(rows + [x], id) == StoredById(rows, id)
    ensures FindOne(rows, id).Some? ==> FindOne(rows + [x], id) == FindOne(rows, id)
    ensures FindOneByEmail(rows, email).Some? ==> FindOneByEmail(rows + [x], email) == FindOneByEmail(rows, email)
  {
    AppendKeepsFirstLive(rows, x, ById(id));
    AppendKeepsFirstLive(rows, x, ByEmail(email));
  }

  /** Patching the row with this id, when the new email is free, keeps the table valid. */
  lemma PatchKeepsValid(rows: seq<User>, id: string, p: UserPatch)
    requires RowsValid(rows)
    requires p.email.Some? ==> !EmailHeld(rows, p.email.value, Some(id))
    ensures RowsValid(UpdatedRows(rows, id, p))
  {
    var r := UpdatedRows(rows, id, p);
    forall i, j | 0 <= i < j < |r| ensures r[i].id != r[j].id && r[i].email != r[j].email {
      if rows[i].id == id {
        assert rows[j].id != id;
        assert r[j] == rows[j];
      } else if rows[j].id == id {
        assert r[i] == rows[i];
      }
    }
  }

  /** After a successful update, findOne answers the patched row (without the hash). */
  lemma UpdatedRowIsFound(rows: seq<User>, id: string, p: UserPatch)
    requires RowsValid(rows) && StoredById(rows, id).Some?
    ensures StoredById(UpdatedRows(rows, id, p), id) == Some(Patched(StoredById(rows, id).value, p))
    ensures FindOne(UpdatedRows(rows, id, p), id) == Some(Hide(Patched(StoredById(rows, id).value, p)))
  {
    var s := StoredById(rows, id).value;
    var r := UpdatedRows(rows, id, p);
    var k :| 0 <= k < |rows| && rows[k] == s;
    assert r[k] == Patched(s, p) && r[k].id == id && Live(r[k]);
    var t := StoredById(r, id).value;
    var m :| 0 <= m < |r| && r[m] == t;
    assert rows[m].id == id;
    assert m == k;
  }

  // ---------------------------------------------------------------------------
  // The repository object
  // ---------------------------------------------------------------------------

  /** UserRepo: the `user` table behind TypeORM's `Repository<User>`. */
  class Repo {
    var rows: seq<User>

    predicate Valid()
      reads this
    {
      RowsValid(rows)
    }

    constructor(initial: seq<User>)
      requires RowsValid(initial)
      ensures Valid() && rows == initial
    {
      rows := initial;
    }

    /** create: INSERT of the new row; `id` and `now` are what the database generates. */
    method Create(dto: CreateUserDto, id: string, now: int) returns (r: Result<User, Error>)
      requires Valid() && FreshId(rows, id)
      modifies this
      ensures Valid()
      ensures r == CreateOutcome(old(rows), dto, id, now)
      ensures rows == if r.Success? then old(rows) + [r.value] else old(rows)
    {
      r := CreateOutcome(rows, dto, id, now);
      if r.Success? {
        InsertKeepsValid(rows, dto, id, now);
        rows := rows + [r.value];
      }
    }

    /** update of a row findOne finds: save of the merged object. */
    method Update(id: string, p: UserPatch) returns (r: Result<User, Error>)
      requires Valid() && FindOne(rows, id).Some?
      modifies this
      ensures Valid()
      ensures r == UpdateOutcome(old(rows), id, p)
      ensures rows == if r.Success? then UpdatedRows(old(rows), id, p) else old(rows)
    {
      r := UpdateOutcome(rows, id, p);
      if r.Success? {
        PatchKeepsValid(rows, id, p);
        rows := UpdatedRows(rows, id, p);
      }
    }

    /** updatePhoto: the same merge with an UpdatePhotoDto, which cannot break the email index. */
    method UpdatePhoto(id: string, photo: Option<string>) returns (r: Result<User, Error>)
      requires Valid() && FindOne(rows, id).Some?
      modifies this
      ensures Valid()
      ensures r.Success? && r.value == Patched(FindOne(old(rows), id).value, PhotoPatch(photo))
      ensures rows == UpdatedRows(old(rows), id, PhotoPatch(photo))
    {
      r := Update(id, PhotoPatch(photo));
    }

    /** remove: `delete(id)`, a hard delete. */
    method Remove(id: string)
      requires Valid()
      modifies this
      ensures Valid()
      ensures rows == WithoutId(old(rows), id)
    {
      WithoutIdKeepsValid(rows, id);
      rows := WithoutId(rows, id);
    }
  }
}
