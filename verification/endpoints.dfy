/** The resource URLs the client addresses, all built by plain concatenation
    onto the normalised host. */
module Endpoints {
  import opened Wrappers
  import opened Strconv
  import opened ClientConfig

  /** `Host + Index`: what isExists addresses. */
  function IndexUrl(c: Client): (u: string)
    ensures c.host <= u && u[|c.host|..] == c.index
  {
    c.host + c.index
  }

  /** `Host + Index + "/" + Type`: the common stem of the document, count and
      search URLs. */
  function KindUrl(c: Client): (u: string)
    ensures IndexUrl(c) <= u && u[|IndexUrl(c)|..] == "/" + c.kind
  {
    IndexUrl(c) + "/" + c.kind
  }

  /** `... + "/" + strconv.Itoa(id)`: the URL of one document (BuildIndex,
      DeleteIndex). */
  function DocumentUrl(c: Client, id: int): (u: string)
    ensures KindUrl(c) <= u && u[|KindUrl(c)|..] == "/" + Itoa(id)
  {
    KindUrl(c) + "/" + Itoa(id)
  }

  /** `... + "/_count"` (Count). */
  function CountUrl(c: Client): (u: string)
    ensures KindUrl(c) <= u && u[|KindUrl(c)|..] == "/_count"
  {
    KindUrl(c) + "/_count"
  }

  /** `... + "/_search"` (SearchBooks, SearchByUnspecified). It is never the
      count URL of the same client. */
  function SearchUrl(c: Client): (u: string)
    ensures KindUrl(c) <= u && u[|KindUrl(c)|..] == "/_search"
    ensures u != CountUrl(c)
  {
    KindUrl(c) + "/_search"
  }

  /** The text after the last `/` of a URL (all of it when there is none). */
  function LastSegment(u: string): (s: string)
    ensures |s| <= |u| && s == u[|u| - |s|..]
    ensures forall i :: 0 <= i < |s| ==> s[i] != '/'
    ensures |s| < |u| ==> u[|u| - |s| - 1] == '/'
    decreases |u|
  {
    if |u| == 0 || u[|u| - 1] == '/' then ""
    else
      var s := LastSegment(u[..|u| - 1]);
      assert u[..|u| - 1][|u| - 1 - |s|..] == u[|u| - 1 - |s|..|u| - 1];
      s + [u[|u| - 1]]
  }

  /** Whatever precedes it, a slash-free segment appended after a `/` is the
      last segment. */
  lemma {:induction false} LastSegmentAfterSlash(pre: string, seg: string)
    requires forall i :: 0 <= i < |seg| ==> seg[i] != '/'
    ensures LastSegment(pre + "/" + seg) == seg
    decreases |seg|
  {
    var u := pre + "/" + seg;
    if |seg| > 0 {
      assert u[..|u| - 1] == pre + "/" + seg[..|seg| - 1];
      LastSegmentAfterSlash(pre, seg[..|seg| - 1]);
      assert seg == seg[..|seg| - 1] + [seg[|seg| - 1]];
    }
  }

  /** The document identifier can be read back from the last segment of a
      document URL, whatever the host, index and type are. */
  lemma DocumentIdRecoverable(c: Client, id: int)
    ensures LastSegment(DocumentUrl(c, id)) == Itoa(id)
    ensures ReadDecimal(LastSegment(DocumentUrl(c, id))) == Some(id)
  {
    LastSegmentAfterSlash(KindUrl(c), Itoa(id));
    ItoaRoundTrip(id);
  }

  /** Different identifiers address different documents. */
  lemma DocumentUrlInjective(c: Client, a: int, b: int)
    requires DocumentUrl(c, a) == DocumentUrl(c, b)
    ensures a == b
  {
    DocumentIdRecoverable(c, a);
    DocumentIdRecoverable(c, b);
  }

  lemma CountUrlEndsInCount(c: Client)
    ensures LastSegment(CountUrl(c)) == "_count"
  {
    assert "/_count" == "/" + "_count";
    assert KindUrl(c) + "/_count" == KindUrl(c) + "/" + "_count";
    LastSegmentAfterSlash(KindUrl(c), "_count");
  }

  lemma SearchUrlEndsInSearch(c: Client)
    ensures LastSegment(SearchUrl(c)) == "_search"
  {
    assert "/_search" == "/" + "_search";
    assert KindUrl(c) + "/_search" == KindUrl(c) + "/" + "_search";
    LastSegmentAfterSlash(KindUrl(c), "_search");
  }

  /** The count and search URLs never coincide with each other or with the
      URL of any document: `_` is not a character Itoa produces. */
  lemma OperationUrlsDistinct(c: Client, id: int)
    ensures CountUrl(c) != SearchUrl(c)
    ensures DocumentUrl(c, id) != CountUrl(c)
    ensures DocumentUrl(c, id) != SearchUrl(c)
  {
    DocumentIdRecoverable(c, id);
    CountUrlEndsInCount(c);
    SearchUrlEndsInSearch(c);
    DocumentUrlNotNamed(c, id, CountUrl(c), "_count");
    DocumentUrlNotNamed(c, id, SearchUrl(c), "_search");
  }

  /** A document URL differs from any URL whose last segment starts with `_`. */
  lemma DocumentUrlNotNamed(c: Client, id: int, u: string, name: string)
    requires LastSegment(u) == name && |name| > 0 && name[0] == '_'
    requires LastSegment(DocumentUrl(c, id)) == Itoa(id)
    ensures DocumentUrl(c, id) != u
  {
    assert IsNumberChar(Itoa(id)[0]);
  }

  /** With a well-formed host and an index that is non-empty and does not
      start with `/`, the host joins the index with exactly one slash. An
      empty index would leave the next `/` right after the host's. */
  lemma SingleSlashAfterHost(c: Client, id: int)
    requires WellFormedHost(c.host)
    requires |c.index| > 0 && c.index[0] != '/'
    ensures var u := DocumentUrl(c, id); u[|c.host| - 1] == '/' && u[|c.host|] != '/'
    ensures var u := CountUrl(c); u[|c.host| - 1] == '/' && u[|c.host|] != '/'
    ensures var u := SearchUrl(c); u[|c.host| - 1] == '/' && u[|c.host|] != '/'
  {
  }

  lemma EmptyIndexDoublesSlash(c: Client, id: int)
    requires WellFormedHost(c.host) && c.index == ""
    ensures var u := DocumentUrl(c, id); u[|c.host| - 1] == '/' && u[|c.host|] == '/'
  {
  }
}
