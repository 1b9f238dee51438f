/** The client value (`ElasticSearchClient`) and its construction. */
module ClientConfig {
  import opened GoStrings

  /** Host URL, index (the collection), type (the document kind) and the
      request timeout in seconds. Never changed after construction. */
  datatype Client = Client(host: string, index: string, kind: string, timeoutSeconds: nat)

  /** A host ending in exactly one `/`: ready to have path segments appended. */
  predicate WellFormedHost(h: string) {
    |h| > 0 && h[|h| - 1] == '/' && (|h| == 1 || h[|h| - 2] != '/')
  }

  /** `strings.TrimRight(host, "/") + "/"`: every trailing slash removed,
      then exactly one appended. Nothing before the trailing slashes changes. */
  function NormalizeHost(h: string): (r: string)
    ensures WellFormedHost(r)
    ensures r[..|r| - 1] <= h && AllIn(h[|r| - 1..], "/")
  {
    TrimRight(h, "/") + "/"
  }

  /** A host that already ends in exactly one slash is left alone, and only
      such a host is: normalising is the identity exactly on well-formed hosts. */
  lemma NormalizeHostFixedPoints(h: string)
    ensures NormalizeHost(h) == h <==> WellFormedHost(h)
  {
    if WellFormedHost(h) {
      var t := h[..|h| - 1];
      assert h == t + "/";
      assert EndsOutside(t, "/");
      TrimRightOfPadded(t, "/", "/");
    }
  }

  /** Normalising twice is normalising once. */
  lemma NormalizeHostIdempotent(h: string)
    ensures NormalizeHost(NormalizeHost(h)) == NormalizeHost(h)
  {
    NormalizeHostFixedPoints(NormalizeHost(h));
  }

  /** A host with no trailing slash gains exactly one, as in the test of the
      constructor on "http://localhost:9200". */
  lemma NormalizeHostAppendsSlash(h: string)
    requires |h| == 0 || h[|h| - 1] != '/'
    ensures NormalizeHost(h) == h + "/"
  {
  }

  lemma NormalizeLocalhost()
    ensures NormalizeHost("http://localhost:9200") == "http://localhost:9200/"
    ensures NormalizeHost("http://localhost:9200///") == "http://localhost:9200/"
  {
    NormalizeHostAppendsSlash("http://localhost:9200");
    assert "http://localhost:9200///" == "http://localhost:9200" + "///";
    TrimRightOfPadded("http://localhost:9200", "///", "/");
  }

  /** `NewElasticSearchClient`, with the host and timeout that the source
      takes from constants given as parameters. */
  function NewClient(host: string, index: string, kind: string, timeoutSeconds: nat): (c: Client)
    ensures WellFormedHost(c.host) && NormalizeHost(c.host) == c.host
    ensures c.host == NormalizeHost(host)
    ensures c.index == index && c.kind == kind && c.timeoutSeconds == timeoutSeconds
  {
    NormalizeHostIdempotent(host);
    Client(NormalizeHost(host), index, kind, timeoutSeconds)
  }
}
