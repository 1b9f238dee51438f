/** The HTTP exchange as the client sees it. The transport itself (httplib,
    timeouts, headers, reading the body) is outside the model: a request goes
    out and a `Reply` comes back, either a transport error or a response whose
    body has already been read in full. */
module Http {
  import opened Wrappers

  datatype Verb = Get | Put | Post | Delete

  /** One outgoing call: verb, absolute URL and optional body. */
  datatype Request = Request(verb: Verb, url: string, body: Option<string>)

  /** What the transport produced for a request. `status` is Go's
      `resp.Status` text (for example "404 Not Found"). */
  datatype Reply =
    | TransportErr(cause: string)
    | Response(code: int, status: string, body: string)

  /** net/http's StatusOK and StatusMultipleChoices. */
  const StatusOK: int := 200
  const StatusMultipleChoices: int := 300

  /** The 2xx band: the only codes every operation treats as success. */
  predicate IsSuccessCode(code: int) {
    StatusOK <= code < StatusMultipleChoices
  }

  /** The failure test written at every call site of the client,
      `StatusCode >= 300 || StatusCode < 200`. It rejects a code exactly when
      the code lies outside the 2xx band, on both sides of it. */
  function Rejects(code: int): (rejected: bool)
    ensures rejected <==> !IsSuccessCode(code)
    ensures rejected <==> code < 200 || 300 <= code
  {
    code >= StatusMultipleChoices || code < StatusOK
  }

  /** The errors an operation can hand back. Go uses plain `error` values;
      the variants record where each one came from.
      - TransportFailure: the transport's own error, passed on unchanged.
      - Rejected: a message built by the client from a non-2xx response.
      - DecodeFailure / EncodeFailure: the JSON library's error, passed on. */
  datatype Error =
    | TransportFailure(cause: string)
    | Rejected(message: string)
    | DecodeFailure(cause: string)
    | EncodeFailure(cause: string)

  /** U+FF1B FULLWIDTH SEMICOLON and U+FF1A FULLWIDTH COLON, the separators
      the client puts between a status text and a body. */
  const Semicolon: string := "\U{FF1B}"
  const Colon: string := "\U{FF1A}"

  /** The message used for a rejected response by most operations:
      status text, fullwidth semicolon, body. */
  function RejectionMessage(status: string, body: string): (m: string)
    ensures |m| == |status| + 1 + |body|
    ensures m[..|status|] == status && m[|status|] == '\U{FF1B}' && m[|status| + 1..] == body
  {
    status + Semicolon + body
  }

  /** Splits a message at the first occurrence of `sep`: the text before it
      and the text after it, or None when `sep` does not occur. */
  function SplitAtFirst(m: string, sep: char): (r: Option<(string, string)>)
    ensures r.Some? ==> r.value.0 + [sep] + r.value.1 == m && sep !in r.value.0
    ensures r.None? ==> sep !in m
    decreases |m|
  {
    if |m| == 0 then None
    else if m[0] == sep then Some(([], m[1..]))
    else match SplitAtFirst(m[1..], sep)
      case None => None
      case Some((before, after)) => Some(([m[0]] + before, after))
  }

  /** A rejection message keeps both diagnostics: when the status text holds
      no fullwidth semicolon (HTTP status lines are normally ASCII), status
      and body are recovered by splitting at the first one. */
  lemma {:induction false} RejectionMessageSplits(status: string, body: string)
    requires '\U{FF1B}' !in status
    ensures SplitAtFirst(RejectionMessage(status, body), '\U{FF1B}') == Some((status, body))
    decreases |status|
  {
    var m := RejectionMessage(status, body);
    if |status| > 0 {
      assert m[1..] == RejectionMessage(status[1..], body);
      RejectionMessageSplits(status[1..], body);
      assert [status[0]] + status[1..] == status;
    } else {
      assert m == [m[0]] + body;
    }
  }
}
