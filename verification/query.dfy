/** The request bodies of the two search operations: page normalisation and
    the filling of a fixed query template with `fmt.Sprintf`. The query text
    is substituted as it is, with no quoting or escaping. */
module Query {
  import opened Wrappers
  import opened Strconv
  import opened Fmt

  /** The caller's 1-based page number turned into the engine's 0-based
      `from`: one less when positive, otherwise 0. */
  function NormalizePage(page: int): (from: nat)
    ensures page > 0 ==> from == page - 1
    ensures page <= 0 ==> from == 0
  {
    if page > 0 then page - 1 else 0
  }

  /** Normalisation undoes the 1-based numbering (page n + 1 is offset n),
      sends every page up to 1 to the first offset, and keeps page order. */
  lemma NormalizePageOrder(n: nat, p: int, q: int)
    ensures NormalizePage(n + 1) == n
    ensures p <= 1 ==> NormalizePage(p) == 0
    ensures p <= q ==> NormalizePage(p) <= NormalizePage(q)
  {
  }

  /** The two search modes: SearchBooks sends a multi_match query over
      description and book_name, SearchByUnspecified a query_string query. */
  datatype Mode = MultiMatch | QueryString

  /** The templates, line by line as the source writes them, split at the
      three `%v` verbs. */
  const MultiMatchHead: string :=
    "{\n" +
    "  \t\t \"query\":{\n" +
    "           \t\t\"multi_match\":{\n" +
    "              \t\t \"query\":"

  const MultiMatchMid: string :=
    ",\n" +
    "               \t\t\"fields\":" + "[\"description\",\"book_name\"]\n" +
    "          \t\t }\n" +
    "   \t\t},\n" +
    "\t\t\"_source\":[\"book_id\"],\n" +
    "\t\t\"size\": "

  const QueryStringHead: string :=
    "{\n" +
    "  \t\t \"query\":{\n" +
    "           \t\t\"query_string\":{\n" +
    "\t\t\t\t\"query\":"

  const QueryStringMid: string :=
    "\n" +
    "\t\t\t}\n" +
    "   \t\t},\n" +
    "\t\t\"_source\":[\"book_id\"],\n" +
    "\t\t\"size\": "

  /** Shared by both templates: between `size` and `from`, and after `from`. */
  const SizeToFrom: string := ",\n" + "\t\t\"from\": "
  const Tail: string := "\n" + "\t}"

  function Head(mode: Mode): string {
    match mode
    case MultiMatch => MultiMatchHead
    case QueryString => QueryStringHead
  }

  function Mid(mode: Mode): string {
    match mode
    case MultiMatch => MultiMatchMid
    case QueryString => QueryStringMid
  }

  /** True iff every `%` in `s` starts a `%v` verb. */
  predicate VerbsOnly(s: string) {
    forall i :: 0 <= i < |s| && s[i] == '%' ==> i + 1 < |s| && s[i + 1] == 'v'
  }

  /** A `%`-free piece, a `%v`, then text whose only `%` start verbs. */
  lemma VerbAfterLiteral(p: string, q: string)
    requires NoPercent(p) && VerbsOnly(q)
    ensures VerbsOnly(p + "%v" + q)
  {
    var s := p + "%v" + q;
    forall i | 0 <= i < |s| && s[i] == '%'
      ensures i + 1 < |s| && s[i + 1] == 'v'
    {
      if i < |p| {
        assert false;
      } else if i >= |p| + 2 {
        assert s[i] == q[i - |p| - 2];
      }
    }
  }

  /** The raw template string handed to Sprintf: its only `%` are the three
      `%v` verbs, so each one takes an argument and nothing else is
      formatted. */
  function Template(mode: Mode): (t: string)
    ensures VerbsOnly(t)
  {
    TemplatePiecesLiteral(mode);
    VerbAfterLiteral(SizeToFrom, Tail);
    VerbAfterLiteral(Mid(mode), SizeToFrom + "%v" + Tail);
    VerbAfterLiteral(Head(mode), Mid(mode) + "%v" + (SizeToFrom + "%v" + Tail));
    var t := Head(mode) + "%v" + Mid(mode) + "%v" + SizeToFrom + "%v" + Tail;
    assert t == Head(mode) + "%v" + (Mid(mode) + "%v" + (SizeToFrom + "%v" + Tail));
    t
  }

  /** The literal parts of both templates contain no `%`, so Sprintf
      copies them unchanged. */
  lemma TemplatePiecesLiteral(mode: Mode)
    ensures NoPercent(Head(mode)) && NoPercent(Mid(mode))
    ensures NoPercent(SizeToFrom) && NoPercent(Tail)
  {
    assert NoPercent("{\n");
    assert NoPercent("  \t\t \"query\":{\n");
    assert NoPercent("           \t\t\"multi_match\":{\n");
    assert NoPercent("              \t\t \"query\":");
    assert NoPercent("           \t\t\"query_string\":{\n");
    assert NoPercent("\t\t\t\t\"query\":");
    assert NoPercent(",\n");
    assert NoPercent("               \t\t\"fields\":");
    assert NoPercent("[\"description\",\"book_name\"]\n");
    assert NoPercent("          \t\t }\n");
    assert NoPercent("   \t\t},\n");
    assert NoPercent("\t\t\"_source\":[\"book_id\"],\n");
    assert NoPercent("\t\t\"size\": ");
    assert NoPercent("\n");
    assert NoPercent("\t\t\t}\n");
    assert NoPercent("\t\t\"from\": ");
    assert NoPercent("\t}");
  }

  /** The body of a search request: the template with the query text, the
      size and the normalised page substituted. The query text sits,
      unchanged and unquoted, right after the opening part of the template. */
  function SearchBody(mode: Mode, text: string, size: int, page: int): (body: string)
    ensures |Head(mode)| + |text| <= |body|
    ensures body[..|Head(mode)|] == Head(mode)
    ensures body[|Head(mode)|..|Head(mode)| + |text|] == text
  {
    PieceAt(Head(mode), text, Mid(mode), Itoa(size), SizeToFrom, Itoa(NormalizePage(page)), Tail);
    Head(mode) + text + Mid(mode) + Itoa(size) + SizeToFrom + Itoa(NormalizePage(page)) + Tail
  }

  /** SearchBody is what `fmt.Sprintf(queryBody, field, size, page)` yields
      on the source's template after page normalisation: the text inserted
      verbatim and the size and normalised page written in decimal, in that
      order. */
  lemma SearchBodyIsSprintf(mode: Mode, text: string, size: int, page: int)
    ensures Sprintf(Template(mode), [text, Itoa(size), Itoa(NormalizePage(page))])
         == SearchBody(mode, text, size, page)
  {
    TemplatePiecesLiteral(mode);
    SprintfThree(Head(mode), Mid(mode), SizeToFrom, Tail, text, Itoa(size), Itoa(NormalizePage(page)));
  }

  lemma PieceAt(h: string, t: string, m: string, a: string, b: string, c: string, d: string)
    ensures (h + t + m + a + b + c + d)[..|h|] == h
    ensures (h + t + m + a + b + c + d)[|h|..|h| + |t|] == t
  {
    var rest := m + a + b + c + d;
    assert h + t + m + a + b + c + d == h + t + rest;
  }

  predicate EndsWith(s: string, suffix: string) {
    |suffix| <= |s| && s[|s| - |suffix|..] == suffix
  }

  /** Length of the longest suffix of `s` made of characters Itoa writes. */
  function TrailingNumberLength(s: string): (k: nat)
    ensures k <= |s|
    decreases |s|
  {
    if |s| > 0 && IsNumberChar(s[|s| - 1]) then 1 + TrailingNumberLength(s[..|s| - 1]) else 0
  }

  lemma {:induction false} TrailingNumberAfter(p: string, q: string)
    requires |p| > 0 && !IsNumberChar(p[|p| - 1])
    requires forall i :: 0 <= i < |q| ==> IsNumberChar(q[i])
    ensures TrailingNumberLength(p + q) == |q|
    decreases |q|
  {
    if |q| > 0 {
      assert (p + q)[..|p + q| - 1] == p + q[..|q| - 1];
      TrailingNumberAfter(p, q[..|q| - 1]);
    } else {
      assert p + q == p;
    }
  }

  /** How the `size` and `from` values are read back out of a body: strip the
      closing text, take the number before it, strip the text between the
      two fields, take the number before that. None when the body does not
      have that shape. */
  function ReadPagination(body: string): Option<(int, int)> {
    if !EndsWith(body, Tail) then None
    else
      var rest := body[..|body| - |Tail|];
      var fromText := rest[|rest| - TrailingNumberLength(rest)..];
      var beforeFrom := rest[..|rest| - TrailingNumberLength(rest)];
      if !EndsWith(beforeFrom, SizeToFrom) then None
      else
        var beforeSep := beforeFrom[..|beforeFrom| - |SizeToFrom|];
        var sizeText := beforeSep[|beforeSep| - TrailingNumberLength(beforeSep)..];
        match (ReadDecimal(sizeText), ReadDecimal(fromText))
        case (Some(size), Some(from)) => Some((size, from))
        case _ => None
  }

  lemma StripSuffix(x: string, t: string)
    ensures EndsWith(x + t, t) && (x + t)[..|x + t| - |t|] == x
  {
    assert (x + t)[|x|..] == t;
  }

  /** Reading back a body whose size and from were written with Itoa and
      whose text before the size does not end in a number character. */
  lemma ReadPaginationOf(a: string, size: int, from: int)
    requires |a| > 0 && !IsNumberChar(a[|a| - 1])
    ensures ReadPagination(a + Itoa(size) + SizeToFrom + Itoa(from) + Tail) == Some((size, from))
  {
    var s := Itoa(size);
    var f := Itoa(from);
    var beforeFrom := a + s + SizeToFrom;
    var rest := beforeFrom + f;
    StripSuffix(rest, Tail);
    assert SizeToFrom[|SizeToFrom| - 1] == ' ';
    TrailingNumberAfter(beforeFrom, f);
    assert rest[|rest| - |f|..] == f;
    assert rest[..|rest| - |f|] == beforeFrom;
    StripSuffix(a + s, SizeToFrom);
    TrailingNumberAfter(a, s);
    assert (a + s)[|a + s| - |s|..] == s;
    ItoaRoundTrip(size);
    ItoaRoundTrip(from);
  }

  /** Whatever the query text, the body carries the caller's size unchanged
      and the normalised page as `from`: reading them back gives exactly those. */
  lemma PaginationRoundTrip(mode: Mode, text: string, size: int, page: int)
    ensures ReadPagination(SearchBody(mode, text, size, page)) == Some((size, NormalizePage(page)))
  {
    var a := Head(mode) + text + Mid(mode);
    assert Mid(mode)[|Mid(mode)| - 1] == ' ';
    assert a[|a| - 1] == ' ';
    ReadPaginationOf(a, size, NormalizePage(page));
  }

  /** The first request of a search for "java", ten per page, page 1: the
      text appears unquoted after `"query":`, size is 10 and from is 0. */
  lemma JavaFirstPage()
    ensures SearchBody(MultiMatch, "java", 10, 1)
         == MultiMatchHead + "java" + MultiMatchMid + "10" + SizeToFrom + "0" + Tail
    ensures ReadPagination(SearchBody(MultiMatch, "java", 10, 1)) == Some((10, 0))
  {
    assert Itoa(10) == "10";
    assert Itoa(0) == "0";
    PaginationRoundTrip(MultiMatch, "java", 10, 1);
  }
}
