/**
 * BaseFilterDto: the query-string filter of list endpoints, after the
 * ValidationPipe has run its transforms (`@Transform` on `isPagination`,
 * `@Type(() => Number)` on `page` and `limit`), its property initialisers and
 * its constraints. The user list's FilterUserDto is taken to be this class.
 */
module BaseFilter {
  import opened Wrappers
  import opened Domain
  import opened ClassValidator

  datatype SortOrder = ASC | DESC

  /** The filter the repository receives. `page`/`limit` are optional because the repository also copes without them. */
  datatype Filter = Filter(
    search: Option<string>,
    isPagination: bool,
    page: Option<int>,
    limit: Option<int>,
    sortBy: Option<string>,
    sortOrder: Option<SortOrder>)

  /**
   * The query as received. `page` and `limit` are the numbers `Number(...)`
   * produced from the query strings; absent keys are `None`.
   */
  datatype FilterQuery = FilterQuery(
    search: Field,
    isPagination: Field,
    page: Option<Num>,
    limit: Option<Num>,
    sortBy: Field,
    sortOrder: Field)

  const DEFAULT_PAGE := 1
  const DEFAULT_LIMIT := 10
  const MAX_LIMIT := 100

  /** The `isPagination` transform together with its initialiser `false`. */
  function PaginationFlag(v: Field): (b: bool)
    ensures b <==> v == Some(RBool(true)) || v == Some(RString("true"))
  {
    match v
    case None => false
    case Some(RBool(b)) => b
    case Some(RString(s)) => s == "true"
    case Some(_) => false
  }

  predicate PageValid(page: Option<Num>) {
    page.None? || IsIntInRange(Some(RNumber(page.value)), 1, None)
  }

  predicate LimitValid(limit: Option<Num>) {
    limit.None? || IsIntInRange(Some(RNumber(limit.value)), 1, Some(MAX_LIMIT))
  }

  predicate SortOrderValid(v: Field) {
    IsNullish(v) || IsEnumOf(v, {"ASC", "DESC"})
  }

  predicate QueryValid(q: FilterQuery) {
    (IsNullish(q.search) || IsString(q.search)) &&
    PageValid(q.page) && LimitValid(q.limit) &&
    (IsNullish(q.sortBy) || IsString(q.sortBy)) &&
    SortOrderValid(q.sortOrder)
  }

  function ParseSortOrder(v: Field): Option<SortOrder> {
    if v == Some(RString("ASC")) then Some(ASC)
    else if v == Some(RString("DESC")) then Some(DESC)
    else None
  }

  /** The ValidationPipe on a filter query: a 400 on any constraint, otherwise the normalised filter. */
  function NormalizeFilter(q: FilterQuery): (r: Result<Filter, Error>)
    ensures r.Success? <==> QueryValid(q)
    ensures r.Failure? ==> r.error == ValidationFailed()
    ensures r.Success? ==>
      r.value.page.Some? && r.value.page.value >= 1 &&
      r.value.limit.Some? && 1 <= r.value.limit.value <= MAX_LIMIT &&
      (r.value.isPagination <==> q.isPagination == Some(RBool(true)) || q.isPagination == Some(RString("true")))
    ensures r.Success? ==>
      (q.page.None? ==> r.value.page == Some(DEFAULT_PAGE)) &&
      (q.page.Some? ==> q.page.value == Int(r.value.page.value)) &&
      (q.limit.None? ==> r.value.limit == Some(DEFAULT_LIMIT)) &&
      (q.limit.Some? ==> q.limit.value == Int(r.value.limit.value)) &&
      (r.value.search.Some? <==> IsString(q.search)) &&
      (r.value.search.Some? ==> q.search == Some(RString(r.value.search.value)))
  {
    if !QueryValid(q) then Failure(ValidationFailed())
    else
      Success(Filter(
        search := if IsString(q.search) then Some(q.search.value.s) else None,
        isPagination := PaginationFlag(q.isPagination),
        page := if q.page.None? then Some(DEFAULT_PAGE) else Some(q.page.value.i),
        limit := if q.limit.None? then Some(DEFAULT_LIMIT) else Some(q.limit.value.i),
        sortBy := if IsString(q.sortBy) then Some(q.sortBy.value.s) else None,
        sortOrder := ParseSortOrder(q.sortOrder)))
  }

  /** A limit above 100, or a fractional page, is a 400. */
  lemma OutOfRangeRejected(q: FilterQuery)
    requires (q.limit.Some? && q.limit.value.Int? && q.limit.value.i > MAX_LIMIT) ||
             (q.page.Some? && !q.page.value.Int?)
    ensures NormalizeFilter(q) == Failure(ValidationFailed())
  {
  }

  /** The empty query is valid and means: no search, no pagination, page 1, limit 10. */
  lemma EmptyQueryDefaults()
    ensures NormalizeFilter(FilterQuery(None, None, None, None, None, None))
      == Success(Filter(None, false, Some(1), Some(10), None, None))
  {
  }
}
