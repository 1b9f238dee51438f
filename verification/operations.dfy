/** The operations of `ElasticSearchClient`. Each one builds its request,
    hands it to the transport `send`, and interprets the reply. JSON encoding
    and decoding are the parameters `marshal` and `decode`: partial functions
    whose failure carries the library's error text.

    Go returns `error` (nil on success) and zero values alongside an error;
    here `Option<Error>` is that error and the other results are 0 or []
    whenever it is present. */
module Operations {
  import opened Wrappers
  import opened Strconv
  import opened Http
  import opened Documents
  import opened ClientConfig
  import opened Endpoints
  import opened Query

  datatype CountResult = CountResult(count: int, err: Option<Error>)
  datatype SearchResult = SearchResult(ids: seq<string>, err: Option<Error>)

  /** The prefix DeleteIndex puts before a rejection message: "failed to
      delete index" followed by a fullwidth colon. */
  const DeletePrefix: string := "删除索引失败" + Colon

  /** A reply that the status test turns into an error. */
  predicate IsRejectedReply(reply: Reply) {
    reply.Response? && !IsSuccessCode(reply.code)
  }

  predicate IsRejection(err: Option<Error>) {
    err.Some? && err.value.Rejected?
  }

  // ---------------------------------------------------------------- ping

  function PingRequest(c: Client): (req: Request)
    ensures req.verb == Get && req.url == c.host && req.body == None
  {
    Request(Get, c.host, None)
  }

  /** `ping`: success exactly on a 2xx response; a transport error is passed
      on; any other status gives "status；body". */
  function Ping(c: Client, send: Request -> Reply): (err: Option<Error>)
    ensures err.None? <==> send(PingRequest(c)).Response? && IsSuccessCode(send(PingRequest(c)).code)
    ensures send(PingRequest(c)).TransportErr? ==> err == Some(TransportFailure(send(PingRequest(c)).cause))
    ensures IsRejectedReply(send(PingRequest(c))) ==>
      var reply := send(PingRequest(c)); err == Some(Rejected(RejectionMessage(reply.status, reply.body)))
  {
    match send(PingRequest(c))
    case TransportErr(e) => Some(TransportFailure(e))
    case Response(code, status, body) =>
      if Rejects(code) then Some(Rejected(RejectionMessage(status, body))) else None
  }

  // ---------------------------------------------------------- BuildIndex

  function BuildRequest(c: Client, doc: IndexedDocument, js: string): (req: Request)
    ensures req.verb == Put && req.body == Some(js)
    ensures req.url == DocumentUrl(c, doc.id)
    ensures ReadDecimal(LastSegment(req.url)) == Some(doc.id)
  {
    DocumentIdRecoverable(c, doc.id);
    Request(Put, DocumentUrl(c, doc.id), Some(js))
  }

  /** `BuildIndex` as written: the document is marshalled and PUT to its URL.
      A marshalling or transport error is returned; the status of the response
      is never looked at, because the rejection error it builds is dropped by
      the final `return nil`. */
  function BuildIndex(c: Client, doc: IndexedDocument, marshal: IndexedDocument -> Result<string, string>,
                      send: Request -> Reply): (err: Option<Error>)
    ensures marshal(doc).Failure? ==> err == Some(EncodeFailure(marshal(doc).error))
    ensures marshal(doc).Success? ==>
      var reply := send(BuildRequest(c, doc, marshal(doc).value));
      (err.None? <==> reply.Response?) &&
      (reply.TransportErr? ==> err == Some(TransportFailure(reply.cause)))
    ensures !IsRejection(err)
  {
    match marshal(doc)
    case Failure(e) => Some(EncodeFailure(e))
    case Success(js) =>
      match send(BuildRequest(c, doc, js))
      case TransportErr(e) => Some(TransportFailure(e))
      case Response(code, status, body) =>
        var ignored := if Rejects(code) then Some(Rejected(RejectionMessage(status, body))) else None;
        None
  }

  /** `BuildIndex` as evidently intended: the rejection is returned like in
      every other operation. */
  function BuildIndexChecked(c: Client, doc: IndexedDocument, marshal: IndexedDocument -> Result<string, string>,
                             send: Request -> Reply): (err: Option<Error>)
    ensures marshal(doc).Failure? ==> err == Some(EncodeFailure(marshal(doc).error))
    ensures marshal(doc).Success? ==>
      var reply := send(BuildRequest(c, doc, marshal(doc).value));
      (err.None? <==> reply.Response? && IsSuccessCode(reply.code)) &&
      (reply.TransportErr? ==> err == Some(TransportFailure(reply.cause))) &&
      (IsRejectedReply(reply) ==> err == Some(Rejected(RejectionMessage(reply.status, reply.body))))
  {
    match marshal(doc)
    case Failure(e) => Some(EncodeFailure(e))
    case Success(js) =>
      match send(BuildRequest(c, doc, js))
      case TransportErr(e) => Some(TransportFailure(e))
      case Response(code, status, body) =>
        if Rejects(code) then Some(Rejected(RejectionMessage(status, body))) else None
  }

  /** The two differ exactly on rejected responses: there the code as written
      reports success and the intended one reports the rejection. */
  lemma BuildIndexDropsRejection(c: Client, doc: IndexedDocument, marshal: IndexedDocument -> Result<string, string>,
                                 send: Request -> Reply)
    requires marshal(doc).Success?
    requires IsRejectedReply(send(BuildRequest(c, doc, marshal(doc).value)))
    ensures BuildIndex(c, doc, marshal, send) == None
    ensures BuildIndexChecked(c, doc, marshal, send).Some?
    ensures BuildIndex(c, doc, marshal, send) != BuildIndexChecked(c, doc, marshal, send)
  {
  }

  /** A concrete case: the engine answers 500 to the PUT of document 1. */
  lemma BuildIndexServerErrorExample(c: Client)
    ensures var doc := IndexedDocument(1, "Go", "");
            var marshal := (d: IndexedDocument) => Success("{}");
            var send := (req: Request) => Response(500, "500 Internal Server Error", "boom");
            BuildIndex(c, doc, marshal, send) == None &&
            BuildIndexChecked(c, doc, marshal, send)
              == Some(Rejected("500 Internal Server Error" + Semicolon + "boom"))
  {
  }

  // --------------------------------------------------------- DeleteIndex

  function DeleteRequest(c: Client, id: int): (req: Request)
    ensures req.verb == Delete && req.body == None
    ensures req.url == DocumentUrl(c, id)
    ensures ReadDecimal(LastSegment(req.url)) == Some(id)
  {
    DocumentIdRecoverable(c, id);
    Request(Delete, DocumentUrl(c, id), None)
  }

  /** `DeleteIndex`: like ping, but a rejection message starts with the
      deletion-failure prefix. */
  function DeleteIndex(c: Client, id: int, send: Request -> Reply): (err: Option<Error>)
    ensures err.None? <==> send(DeleteRequest(c, id)).Response? && IsSuccessCode(send(DeleteRequest(c, id)).code)
    ensures send(DeleteRequest(c, id)).TransportErr? ==> err == Some(TransportFailure(send(DeleteRequest(c, id)).cause))
    ensures IsRejectedReply(send(DeleteRequest(c, id))) ==>
      var reply := send(DeleteRequest(c, id));
      err == Some(Rejected(DeletePrefix + RejectionMessage(reply.status, reply.body)))
  {
    match send(DeleteRequest(c, id))
    case TransportErr(e) => Some(TransportFailure(e))
    case Response(code, status, body) =>
      if Rejects(code) then Some(Rejected(DeletePrefix + RejectionMessage(status, body))) else None
  }

  /** Deleting a missing document: the engine answers 404 and the error
      carries the prefix, the status text and the body. */
  lemma DeleteMissingDocument(c: Client, body: string)
    ensures var send := (req: Request) => Response(404, "404 Not Found", body);
            DeleteIndex(c, 42, send)
              == Some(Rejected(DeletePrefix + "404 Not Found" + Semicolon + body))
  {
    assert DeletePrefix + RejectionMessage("404 Not Found", body)
        == DeletePrefix + "404 Not Found" + Semicolon + body;
  }

  // ------------------------------------------------------------ isExists

  function ExistsRequest(c: Client): (req: Request)
    ensures req.verb == Get && req.body == None
    ensures c.host <= req.url && req.url[|c.host|..] == c.index
  {
    Request(Get, IndexUrl(c), None)
  }

  /** `isExists`: like ping on `Host + Index`, but its rejection message
      separates status and body with a fullwidth colon. */
  function IsExists(c: Client, send: Request -> Reply): (err: Option<Error>)
    ensures err.None? <==> send(ExistsRequest(c)).Response? && IsSuccessCode(send(ExistsRequest(c)).code)
    ensures send(ExistsRequest(c)).TransportErr? ==> err == Some(TransportFailure(send(ExistsRequest(c)).cause))
    ensures IsRejectedReply(send(ExistsRequest(c))) ==>
      var reply := send(ExistsRequest(c)); err == Some(Rejected(reply.status + Colon + reply.body))
  {
    match send(ExistsRequest(c))
    case TransportErr(e) => Some(TransportFailure(e))
    case Response(code, status, body) =>
      if Rejects(code) then Some(Rejected(status + Colon + body)) else None
  }

  // --------------------------------------------------------------- Count

  function CountRequest(c: Client): (req: Request)
    ensures req.verb == Get && req.body == None
    ensures req.url == CountUrl(c)
    ensures LastSegment(req.url) == "_count"
  {
    CountUrlEndsInCount(c);
    Request(Get, CountUrl(c), None)
  }

  /** `Count`: the decoded `count` on a 2xx response that decodes; otherwise
      0 with the transport, rejection or decoding error. */
  function Count(c: Client, send: Request -> Reply, decode: string -> Result<CountResponse, string>): (r: CountResult)
    ensures r.err.Some? ==> r.count == 0
    ensures var reply := send(CountRequest(c));
      (r.err.None? <==> reply.Response? && IsSuccessCode(reply.code) && decode(reply.body).Success?) &&
      (r.err.None? ==> r.count == decode(reply.body).value.count) &&
      (reply.TransportErr? ==> r.err == Some(TransportFailure(reply.cause))) &&
      (IsRejectedReply(reply) ==> r.err == Some(Rejected(RejectionMessage(reply.status, reply.body)))) &&
      (reply.Response? && IsSuccessCode(reply.code) && decode(reply.body).Failure? ==>
         r.err == Some(DecodeFailure(decode(reply.body).error))) &&
      (r.err.Some? && r.err.value.DecodeFailure? ==>
         reply.Response? && IsSuccessCode(reply.code) && decode(reply.body) == Failure(r.err.value.cause))
  {
    match send(CountRequest(c))
    case TransportErr(e) => CountResult(0, Some(TransportFailure(e)))
    case Response(code, status, body) =>
      if Rejects(code) then CountResult(0, Some(Rejected(RejectionMessage(status, body))))
      else
        match decode(body)
        case Failure(e) => CountResult(0, Some(DecodeFailure(e)))
        case Success(obj) => CountResult(obj.count, None)
  }

  // -------------------------------------------------------------- search

  /** The POST both search operations send: to `_search`, with the filled
      template as body. */
  function SearchRequest(c: Client, mode: Mode, text: string, size: int, page: int): (req: Request)
    ensures req.verb == Post && req.url == SearchUrl(c)
    ensures LastSegment(req.url) == "_search"
    ensures req.body == Some(SearchBody(mode, text, size, page))
  {
    SearchUrlEndsInSearch(c);
    Request(Post, SearchUrl(c), Some(SearchBody(mode, text, size, page)))
  }

  /** The body of every search request carries the caller's size and the
      normalised page. */
  lemma SearchRequestPagination(c: Client, mode: Mode, text: string, size: int, page: int)
    ensures ReadPagination(SearchRequest(c, mode, text, size, page).body.value) == Some((size, NormalizePage(page)))
  {
    PaginationRoundTrip(mode, text, size, page);
  }

  /** What a search reports for a reply: the hit identifiers in order on a
      2xx response that decodes, and otherwise no identifiers and the error. */
  ghost predicate SearchReported(reply: Reply, decode: string -> Result<SearchResponse, string>, r: SearchResult) {
    && (r.err.Some? ==> r.ids == [])
    && (r.err.None? <==> reply.Response? && IsSuccessCode(reply.code) && decode(reply.body).Success?)
    && (r.err.None? ==>
          var hits := decode(reply.body).value.hits.hits;
          |r.ids| == |hits| && forall i :: 0 <= i < |hits| ==> r.ids[i] == hits[i].id)
    && (reply.TransportErr? ==> r.err == Some(TransportFailure(reply.cause)))
    && (IsRejectedReply(reply) ==> r.err == Some(Rejected(RejectionMessage(reply.status, reply.body))))
    && (reply.Response? && IsSuccessCode(reply.code) && decode(reply.body).Failure? ==>
          r.err == Some(DecodeFailure(decode(reply.body).error)))
    && (r.err.Some? && r.err.value.DecodeFailure? ==>
          reply.Response? && IsSuccessCode(reply.code) && decode(reply.body) == Failure(r.err.value.cause))
  }

  /** The reply handling both search operations share (the code after the
      request is sent is the same in both). */
  function SearchReply(reply: Reply, decode: string -> Result<SearchResponse, string>): (r: SearchResult)
    ensures SearchReported(reply, decode, r)
  {
    match reply
    case TransportErr(e) => SearchResult([], Some(TransportFailure(e)))
    case Response(code, status, body) =>
      if Rejects(code) then SearchResult([], Some(Rejected(RejectionMessage(status, body))))
      else
        match decode(body)
        case Failure(e) => SearchResult([], Some(DecodeFailure(e)))
        case Success(obj) => SearchResult(HitIds(obj.hits.hits), None)
  }

  /** `SearchBooks`: a multi_match query over description and book_name. */
  function SearchBooks(c: Client, text: string, size: int, page: int, send: Request -> Reply,
                       decode: string -> Result<SearchResponse, string>): (r: SearchResult)
    ensures SearchReported(send(SearchRequest(c, MultiMatch, text, size, page)), decode, r)
  {
    SearchReply(send(SearchRequest(c, MultiMatch, text, size, page)), decode)
  }

  /** `SearchByUnSpecified`: a query_string query over the default fields. */
  function SearchByUnspecified(c: Client, text: string, size: int, page: int, send: Request -> Reply,
                               decode: string -> Result<SearchResponse, string>): (r: SearchResult)
    ensures SearchReported(send(SearchRequest(c, QueryString, text, size, page)), decode, r)
  {
    SearchReply(send(SearchRequest(c, QueryString, text, size, page)), decode)
  }

  /** An empty hit list is a successful search with no identifiers. */
  lemma EmptyHitsIsNotAnError(reply: Reply, decode: string -> Result<SearchResponse, string>)
    requires reply.Response? && IsSuccessCode(reply.code)
    requires decode(reply.body).Success? && decode(reply.body).value.hits.hits == []
    ensures SearchReply(reply, decode) == SearchResult([], None)
  {
  }

  /** The transport that answers every request with the same reply. */
  function Constant(reply: Reply): Request -> Reply {
    (req: Request) => reply
  }

  /** A search for "java", ten per page, page 1, answered 200 with two hits:
      the request asks for size 10 from 0, and the result is the two ids. */
  lemma JavaSearchScenario(c: Client, status: string, body: string,
                           decode: string -> Result<SearchResponse, string>, a: Hit, b: Hit)
    requires decode(body).Success? && decode(body).value.hits.hits == [a, b]
    ensures ReadPagination(SearchRequest(c, MultiMatch, "java", 10, 1).body.value) == Some((10, 0))
    ensures SearchBooks(c, "java", 10, 1, Constant(Response(200, status, body)), decode)
         == SearchResult([a.id, b.id], None)
  {
    JavaFirstPage();
    var r := SearchBooks(c, "java", 10, 1, Constant(Response(200, status, body)), decode);
    assert SearchReported(Response(200, status, body), decode, r);
    assert r.ids == [a.id, b.id];
  }

  // ------------------------------------------------------ all operations

  /** The same status test is applied by every operation: each one reports a
      rejection exactly for a response outside 2xx, except BuildIndex as
      written, which never does. */
  lemma UniformStatusTest(c: Client, reply: Reply, id: int, doc: IndexedDocument, js: string,
                          text: string, size: int, page: int,
                          countDecode: string -> Result<CountResponse, string>,
                          searchDecode: string -> Result<SearchResponse, string>)
    ensures IsRejection(Ping(c, Constant(reply))) <==> IsRejectedReply(reply)
    ensures IsRejection(IsExists(c, Constant(reply))) <==> IsRejectedReply(reply)
    ensures IsRejection(DeleteIndex(c, id, Constant(reply))) <==> IsRejectedReply(reply)
    ensures IsRejection(Count(c, Constant(reply), countDecode).err) <==> IsRejectedReply(reply)
    ensures IsRejection(SearchBooks(c, text, size, page, Constant(reply), searchDecode).err) <==> IsRejectedReply(reply)
    ensures IsRejection(SearchByUnspecified(c, text, size, page, Constant(reply), searchDecode).err) <==> IsRejectedReply(reply)
    ensures IsRejection(BuildIndexChecked(c, doc, d => Success(js), Constant(reply))) <==> IsRejectedReply(reply)
    ensures !IsRejection(BuildIndex(c, doc, d => Success(js), Constant(reply)))
  {
  }
}
