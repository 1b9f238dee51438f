# ElasticSearch book-search client, modelled in Dafny

This project models the decision logic of a small Go client, `ElasticSearchClient`. The client indexes book records in an Elasticsearch engine, deletes them, counts them and runs full-text searches over them. Each operation follows the same steps:

1. Build a URL by concatenating onto a normalised host.
2. Optionally build a JSON body; for searches, a fixed query template is filled with `fmt.Sprintf`.
3. Send the request once.
4. Classify the response: a status outside `[200, 300)` is a failure.
5. On success, pull the payload out of the decoded JSON: the hit identifiers, or the count.

The model is functional. The transport is a parameter `send: Request -> Reply`, where a `Reply` is either `TransportErr(cause)` or `Response(code, status, body)`. JSON encoding and decoding are parameters too: partial functions that return `Result`. Every operation is a pure function from these inputs to Go's results, with the `error` written as `Option<Error>`.

Modules, leaves first:

- `Wrappers`: defines `Option` and `Result`.
- `GoStrings`: models `strings.TrimRight` with a cutset.
- `Strconv`: models `strconv.Itoa`, and adds `ReadDecimal`, its inverse.
- `Fmt`: models `fmt.Sprintf` for the `%v` verb.
- `Http`: requests, replies, the status test, the error taxonomy and rejection messages.
- `Documents`: the decoded response shapes, and hit-identifier extraction.
- `ClientConfig`: the client value, host normalisation and the constructor.
- `Endpoints`: the resource URLs.
- `Query`: page normalisation, the two query templates, and a reader that gets `size` and `from` back out of a body.
- `Operations`: the seven operations, plus the lemmas that relate them.

Behaviour of the code worth knowing before reading the model:

- Ping GETs the bare host (models/ElasticSearchModel.go:106).
- The query text is substituted verbatim with `%v`, unquoted and unescaped (models/ElasticSearchModel.go:216, 254). `Query.SearchBody` and `Query.JavaFirstPage` state exactly that.
- Hit identifiers are bound to the JSON key `"id"`, not `"_id"` (models/ElasticSearchModel.go:71). In the model, `Hit.id` is whatever the decoder produced for that key.
- BuildIndex ignores the response status (see Findings).

## Model

| member | source | states |
|---|---|---|
| GoStrings.TrimRight | models/ElasticSearchModel.go:100 | `strings.TrimRight(h, "/")` yields the longest prefix of the input that does not end in a cutset character; everything removed is cutset characters |
| GoStrings.TrimRightOfPadded | models/ElasticSearchModel.go:100 | trimming `t + pad` gives back `t` whenever `t` does not end in a cutset character and `pad` is made only of cutset characters (the characterisation has one solution) |
| ClientConfig.NormalizeHost | models/ElasticSearchModel.go:100 | the normalised host ends in `/` and has no `//` at its end; it keeps the original text up to the trailing slashes and drops only slashes |
| ClientConfig.NormalizeHostFixedPoints | models/ElasticSearchModel.go:100 | normalising leaves a host unchanged if and only if it already ends in exactly one `/` |
| ClientConfig.NormalizeHostIdempotent | models/ElasticSearchModel.go:100 | normalising twice gives the same host as normalising once |
| ClientConfig.NormalizeHostAppendsSlash | models/ElasticSearchModel.go:100 | a host without a trailing slash gains exactly one |
| ClientConfig.NormalizeLocalhost | models/ElasticSearchModel_test.go:10-12 | "http://localhost:9200" normalises to "http://localhost:9200/", and so does the same host with three trailing slashes |
| ClientConfig.NewClient | models/ElasticSearchModel.go:93-102 | the constructed client's host is well formed and already normalised; index, type and timeout are stored unchanged |
| Strconv.Itoa | models/ElasticSearchModel.go:127 | `strconv.Itoa` yields a non-empty string of digits and `-`, only digits exactly when the number is non-negative, a leading `-` otherwise, and no leading zero |
| Strconv.ItoaRoundTrip | models/ElasticSearchModel.go:127 | reading back the decimal spelling of any integer gives that integer |
| Strconv.ItoaInjective | models/ElasticSearchModel.go:145 | distinct integers have distinct spellings |
| Endpoints.IndexUrl | models/ElasticSearchModel.go:159 | the existence-check URL starts with the host, and the index follows it verbatim |
| Endpoints.KindUrl | models/ElasticSearchModel.go:173 | the common stem starts with the index URL and continues with `/` and the type |
| Endpoints.DocumentUrl | models/ElasticSearchModel.go:127 | the document URL is the common stem followed by `/` and the decimal id |
| Endpoints.CountUrl | models/ElasticSearchModel.go:173 | the count URL is the common stem followed by `/_count` |
| Endpoints.SearchUrl | models/ElasticSearchModel.go:245 | the search URL is the common stem followed by `/_search`; it always differs from the count URL of the same client |
| Endpoints.DocumentIdRecoverable | models/ElasticSearchModel.go:127 | the last path segment of a document URL is `Itoa(id)` and reads back to `id`, whatever the host, index and type are |
| Endpoints.DocumentUrlInjective | models/ElasticSearchModel.go:145 | two document URLs of one client are equal only for equal identifiers |
| Endpoints.CountUrlEndsInCount | models/ElasticSearchModel.go:173 | the count URL's last segment is `_count` |
| Endpoints.SearchUrlEndsInSearch | models/ElasticSearchModel.go:207 | the search URL's last segment is `_search` |
| Endpoints.OperationUrlsDistinct | models/ElasticSearchModel.go:145-173 | the count URL, the search URL and every document URL are pairwise different |
| Endpoints.SingleSlashAfterHost | models/ElasticSearchModel.go:127 | with a well-formed host and a non-empty index not starting with `/`, the document, count and search URLs have exactly one `/` where the host meets the index |
| Endpoints.EmptyIndexDoublesSlash | models/ElasticSearchModel.go:127 | with an empty index, the document URL has `//` right after the host |
| Fmt.Sprintf | models/ElasticSearchModel.go:224 | `fmt.Sprintf` with no arguments copies a template without `%` unchanged; Fmt.SprintfThree gives the three-verb case the client uses |
| Fmt.SprintfThree | models/ElasticSearchModel.go:224 | `Sprintf` on a three-`%v` template with `%`-free literal parts inserts the three arguments in order and copies the literal parts |
| Query.NormalizePage | models/ElasticSearchModel.go:208-212 | the `from` value is never negative: page − 1 for a positive page, 0 otherwise |
| Query.NormalizePageOrder | models/ElasticSearchModel.go:246-250 | page n + 1 becomes offset n, every page up to 1 becomes offset 0, and page order is kept |
| Query.TemplatePiecesLiteral | models/ElasticSearchModel.go:213-223 | the literal parts of both query templates contain no `%`, so the template has exactly three substitution points |
| Query.SearchBodyIsSprintf | models/ElasticSearchModel.go:213-224 | filling the source template with Sprintf on (text, size, normalised page) gives the template pieces with the text, then Itoa(size), then Itoa(from), in that order |
| Query.Template | models/ElasticSearchModel.go:213-223 | every `%` in either query template starts a `%v` verb, so Sprintf only substitutes arguments and formats nothing else; the pieces are the raw string's lines byte for byte |
| Query.SearchBody | models/ElasticSearchModel.go:251-261 | the search body opens with the template's head and the query text follows it unchanged and unquoted; Query.SearchBodyIsSprintf and Query.PaginationRoundTrip characterise the rest |
| Query.PaginationRoundTrip | models/ElasticSearchModel.go:221-224 | reading a search body back yields exactly the caller's size and the normalised page, whatever the query text |
| Query.JavaFirstPage | models/ElasticSearchModel.go:213-224 | a search for "java", size 10, page 1 produces `"query":java` unquoted, with size 10 and from 0 |
| Http.Rejects | models/ElasticSearchModel.go:110 | the status test rejects a code exactly when it lies outside `[200, 300)`, below and above |
| Http.RejectionMessage | models/ElasticSearchModel.go:112 | a rejection message is the status text, a fullwidth semicolon, then the body, with nothing dropped |
| Http.RejectionMessageSplits | models/ElasticSearchModel.go:112 | when the status text holds no fullwidth semicolon, splitting the message at its first fullwidth semicolon gives back exactly the status text and the body |
| Documents.HitIds | models/ElasticSearchModel.go:233-236 | the result has one identifier per hit, and the i-th identifier is the i-th hit's `id`, in the engine's order |
| Operations.PingRequest | models/ElasticSearchModel.go:106 | ping is a GET of the bare host, with no body |
| Operations.Ping | models/ElasticSearchModel.go:105-115 | ping succeeds exactly on a 2xx response; a transport error is passed on unchanged; any other status gives status；body |
| Operations.BuildRequest | models/ElasticSearchModel.go:127-132 | BuildIndex PUTs the marshalled document to `Host + Index + "/" + Type + "/" + Itoa(id)`, whose last segment reads back to the document's id |
| Operations.BuildIndex | models/ElasticSearchModel.go:126-141 | as written: fails only when marshalling or the transport fails; any response, whatever its status, gives nil |
| Operations.BuildIndexChecked | models/ElasticSearchModel.go:136-140 | as intended: also fails, with status；body, exactly on a non-2xx response |
| Operations.BuildIndexDropsRejection | models/ElasticSearchModel.go:136-140 | on every non-2xx response the as-written BuildIndex reports success and the intended one reports an error |
| Operations.BuildIndexServerErrorExample | models/ElasticSearchModel.go:136-140 | a 500 answer to the PUT of document 1 is silently accepted as written, and rejected as intended |
| Operations.DeleteRequest | models/ElasticSearchModel.go:145-146 | DeleteIndex sends a body-less DELETE to `Host + Index + "/" + Type + "/" + Itoa(id)`, whose last segment reads back to the id |
| Operations.DeleteIndex | models/ElasticSearchModel.go:144-155 | delete succeeds exactly on 2xx; a transport error is passed on; a rejection message is the deletion-failure prefix followed by status；body |
| Operations.DeleteMissingDocument | models/ElasticSearchModel.go:151 | a 404 on delete yields the error "删除索引失败：404 Not Found；" followed by the body |
| Operations.ExistsRequest | models/ElasticSearchModel.go:159-161 | isExists GETs the host followed by the index, with no body |
| Operations.IsExists | models/ElasticSearchModel.go:158-168 | isExists succeeds exactly on 2xx; a transport error is passed on; a rejection message uses a fullwidth colon: status：body |
| Operations.CountRequest | models/ElasticSearchModel.go:173-174 | Count sends a body-less GET to `Host + Index + "/" + Type + "/_count"`, whose last segment is `_count` |
| Operations.Count | models/ElasticSearchModel.go:172-188 | the error is absent exactly on a 2xx response that decodes, and then the count is the decoded count; with any error the count is 0; a transport error is passed on, a non-2xx status gives status；body, and a 2xx body that fails to decode gives the decoder's own error |
| Operations.SearchRequest | models/ElasticSearchModel.go:206-225 | a search POSTs the filled template to `Host + Index + "/" + Type + "/_search"`, whose last segment is `_search` |
| Operations.SearchRequestPagination | models/ElasticSearchModel.go:245-261 | the body of every search request reads back to the caller's size and the normalised page |
| Operations.SearchReply | models/ElasticSearchModel.go:225-240 | ids are reported exactly on a 2xx response that decodes, and they are the hit ids in order (one per hit); with any error there are no ids; a transport error is passed on, a non-2xx status gives status；body, and a 2xx body that fails to decode gives the decoder's own error |
| Operations.SearchBooks | models/ElasticSearchModel.go:206-241 | the multi_match search sends its request to the search URL and reports the reply as SearchReply describes, including the decoder's own error for a 2xx body that does not decode |
| Operations.SearchByUnspecified | models/ElasticSearchModel.go:244-277 | the query_string search sends its request to the search URL and reports the reply as SearchReply describes, including the decoder's own error for a 2xx body that does not decode |
| Operations.EmptyHitsIsNotAnError | models/ElasticSearchModel.go:269-273 | a 2xx response that decodes to an empty hit list gives no ids and no error |
| Operations.JavaSearchScenario | models/ElasticSearchModel.go:206-241 | a search for "java", size 10, page 1, answered 200 with two hits, asks for size 10 from 0 and returns the two ids in order |
| Operations.UniformStatusTest | models/ElasticSearchModel.go:110-266 | every operation reports a rejection exactly for a response outside 2xx, except BuildIndex as written, which never does |

## Findings

| source | as written | input that shows it | evidently intended | confidence | as-written member | corrected member |
|---|---|---|---|---|---|---|
| models/ElasticSearchModel.go:136-140 | on a non-2xx status the error is built and assigned to `err`, then `return nil` discards it | the PUT of document 1 answered `500 Internal Server Error` with body "boom": BuildIndex returns nil | return the rejection error `500 Internal Server Error；boom`, as every other operation does | high; not executed | Operations.BuildIndex (shown by Operations.BuildIndexServerErrorExample and Operations.BuildIndexDropsRejection) | Operations.BuildIndexChecked |

## Left out

- The transport: httplib's `put`/`post`/`delete`/`get` builders, the `Content-Type` header, the timeouts and `ioutil.ReadAll` (models/ElasticSearchModel.go:351-368). A reply arrives with its body already read. A body that fails to read part-way is not modelled, because the source ignores that error. `Client.timeoutSeconds` is stored but used by nothing in the model.
- The inside of `encoding/json`: `marshal` and `decode` are function parameters. The model does not express that `json.Marshal` of this record cannot fail in practice. Go may fill part of a decoded value before failing, but the client never reads that value after an error, so this is unobservable.
- The `_score` and `max_score` fields, which are dynamically typed values (number or null). The shard statistics are decoded but never used.
- The commented-out bool-query examples (models/ElasticSearchModel.go:279-348), which are not code.
- The configuration constants (models/ElasticSearchModel.go:17-22). Host, index, type and timeout are parameters of `ClientConfig.NewClient` instead.
- Go's 64-bit `int`: the model uses unbounded integers. No wrap-around can occur in the modelled arithmetic, because `page - 1` is only taken for a positive page.
- Fmt.Sprintf: only the `%v` verb and `%%` are modelled. Arguments left over are dropped, where Go appends `%!(EXTRA type=value)`. Any other verb is copied as text. These cases cannot arise here: both templates hold exactly three `%v`, no other `%`, and receive three arguments.
- Operations.SearchReply: Go returns a nil slice on every error path and also for an empty hit list. The model returns the empty sequence in both cases, and does not distinguish nil from empty.
