/**
 * TransformInterceptor and PaginationInterceptor: the map callbacks that turn
 * a handler's SuccessResponse into the body the client receives. `statusCode`
 * is the HTTP response's status (the route's default), not the envelope's;
 * the `timestamp` field is not modelled.
 */
module Interceptors {
  import opened Wrappers
  import opened Domain

  /** StandardResponse, without its timestamp. */
  datatype StandardResponse<T> = StandardResponse(statusCode: int, message: string, data: Option<T>)

  /** A handler's pagination data before the interceptor: `entities` may be missing (`None` is undefined). */
  datatype PageBody<T> = PageBody(entities: Option<seq<T>>, meta: Option<Meta>)

  const DEFAULT_MESSAGE := "Success"

  /** The page the pagination interceptor answers when the data has no entities. */
  function EmptyPage<T>(): Page<T> {
    Page([], Some(Meta(1, 0, 0, 0)))
  }

  /** `responseData?.message || 'Success'`. */
  function MessageOf(message: string): (m: string)
    ensures message != "" ==> m == message
    ensures message == "" ==> m == DEFAULT_MESSAGE
    ensures m != ""
  {
    if message != "" then message else DEFAULT_MESSAGE
  }

  /** TransformInterceptor's map: the response status, the handler's message or "Success", and its data or null. */
  function Transform<T>(statusCode: int, r: SuccessResponse<T>): (s: StandardResponse<T>)
    ensures s.statusCode == statusCode && s.data == r.data && s.message == MessageOf(r.message)
  {
    StandardResponse(statusCode, MessageOf(r.message), r.data)
  }

  /** PaginationInterceptor's map: data without entities becomes the empty page, any other passes unchanged. */
  function Paginate<T>(statusCode: int, r: SuccessResponse<PageBody<T>>): (s: StandardResponse<Page<T>>)
    ensures s.statusCode == statusCode && s.message == MessageOf(r.message)
    ensures r.data.None? || r.data.value.entities.None? ==> s.data == Some(EmptyPage())
    ensures r.data.Some? && r.data.value.entities.Some? ==>
      s.data == Some(Page(r.data.value.entities.value, r.data.value.meta))
  {
    if r.data.None? || r.data.value.entities.None? then StandardResponse(statusCode, MessageOf(r.message), Some(EmptyPage()))
    else StandardResponse(statusCode, MessageOf(r.message), Some(Page(r.data.value.entities.value, r.data.value.meta)))
  }

  /** The envelope's own statusCode and meta never reach the client: two envelopes differing only there answer the same. */
  lemma EnvelopeStatusIsDropped<T>(statusCode: int, r: SuccessResponse<T>, otherStatus: int, otherMeta: Option<Meta>)
    ensures Transform(statusCode, r) == Transform(statusCode, r.(statusCode := otherStatus, meta := otherMeta))
    ensures Transform(statusCode, r).statusCode == statusCode
  {
  }

  /** An empty list of entities is still entities: it passes through with its own meta block, not the default one. */
  lemma EmptyEntitiesPassThrough<T>(statusCode: int, message: string, meta: Option<Meta>)
    ensures var body: PageBody<T> := PageBody(Some([]), meta);
      Paginate(statusCode, SuccessResponse(Some(body), message, OK, None)).data == Some(Page([], meta))
  {
  }
}
