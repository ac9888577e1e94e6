/** The fetcher that gets a page over HTTP and extracts its text and metadata. What the client and the extraction library
    answer is a parameter; a page is assembled step by step, with an early return for every kind of failure. */
module Trafilatura {
  import opened Wrappers
  import opened Urls
  import opened WebPages
  import opened Texts

  /** What the extraction library reports. `url` is the canonical URL in the metadata, if it parses. */
  datatype ExtractResult = ExtractResult(
    contentText: string, url: Option<Url>, title: string, author: string, hostname: string, description: string,
    sitename: string, date: Time, categories: List, tags: List, license: string, language: string, image: string,
    pageType: string)

  /** What the outside world answers to a fetch: an error, perhaps an HTTP error or with a response beside it; or a
      response with its status, the text of the error that a bad status becomes, its media type if the Content-Type
      header parses, and what extraction makes of its body. */
  datatype Answer =
    | GetFailed(error: string, httpStatus: Option<int>, respStatus: Option<int>)
    | Got(statusCode: int, httpError: string, mediaType: Option<string>, extracted: Result<ExtractResult, string>)

  const SUPPORTED := ["text/html", "application/xhtml+xml", "text/plain"]

  function UnsupportedContentType(mediaType: string): string {
    "HTTP fetch error (415): Unsupported Media Type - " + mediaType
  }

  // ---- Authors ----

  /** The characters with Unicode property White_Space. */
  predicate IsSpace(c: char) {
    var n := c as int;
    || 0x09 <= n <= 0x0d || n == 0x20 || n == 0x85 || n == 0xa0 || n == 0x1680
    || 0x2000 <= n <= 0x200a || n == 0x2028 || n == 0x2029 || n == 0x202f || n == 0x205f || n == 0x3000
  }

  function TrimLeft(s: string): string {
    if s != "" && IsSpace(s[0]) then TrimLeft(s[1..]) else s
  }

  function TrimRight(s: string): string {
    if s != "" && IsSpace(s[|s| - 1]) then TrimRight(s[..|s| - 1]) else s
  }

  function TrimSpace(s: string): string {
    TrimRight(TrimLeft(s))
  }

  function NonBlank(names: seq<string>): seq<string> {
    if names == [] then []
    else
      var last := TrimSpace(names[|names| - 1]);
      NonBlank(names[..|names| - 1]) + if last != "" then [last] else []
  }

  function AuthorsOf(author: string): seq<string> {
    NonBlank(Split(author, ';'))
  }

  function JoinNames(names: seq<string>): string {
    if names == [] then "" else if |names| == 1 then names[0] else names[0] + ";" + JoinNames(names[1..])
  }

  /** A name as the list of authors holds it. */
  predicate CleanName(name: string) {
    name != "" && ';' !in name && !IsSpace(name[0]) && !IsSpace(name[|name| - 1])
  }

  lemma {:induction false} TrimLeftEdges(s: string)
    ensures forall c | c in TrimLeft(s) :: c in s
    ensures TrimLeft(s) != "" ==> !IsSpace(TrimLeft(s)[0])
  {
    if s != "" && IsSpace(s[0]) {
      TrimLeftEdges(s[1..]);
    }
  }

  lemma {:induction false} TrimRightEdges(s: string)
    ensures forall c | c in TrimRight(s) :: c in s
    ensures TrimRight(s) != "" ==> s != "" && TrimRight(s)[0] == s[0] && !IsSpace(TrimRight(s)[|TrimRight(s)| - 1])
  {
    if s != "" && IsSpace(s[|s| - 1]) {
      TrimRightEdges(s[..|s| - 1]);
    }
  }

  lemma {:induction false} NonBlankNamesAreClean(names: seq<string>)
    requires forall i | 0 <= i < |names| :: ';' !in names[i]
    ensures forall a | a in NonBlank(names) :: CleanName(a)
  {
    if names != [] {
      var last := names[|names| - 1];
      NonBlankNamesAreClean(names[..|names| - 1]);
      TrimLeftEdges(last);
      TrimRightEdges(TrimLeft(last));
    }
  }

  lemma {:induction false} CleanNamesStay(names: seq<string>)
    requires forall i | 0 <= i < |names| :: CleanName(names[i])
    ensures NonBlank(names) == names
  {
    if names != [] {
      CleanNamesStay(names[..|names| - 1]);
      assert names == names[..|names| - 1] + [names[|names| - 1]];
    }
  }

  lemma {:induction false} SplitJoinedNames(names: seq<string>)
    requires names != [] && forall i | 0 <= i < |names| :: ';' !in names[i]
    ensures Split(JoinNames(names), ';') == names
  {
    if |names| == 1 {
      SplitUncut(names[0], ';');
    } else {
      SplitJoinedNames(names[1..]);
      SplitAtFirst(names[0], JoinNames(names[1..]), ';');
    }
  }

  /** Authors come out trimmed, non-empty and without semicolons; and listing such names with semicolons between them
      gives exactly those names back. */
  lemma AuthorsRoundTrip(author: string, names: seq<string>)
    ensures forall a | a in AuthorsOf(author) :: CleanName(a)
    ensures (forall i | 0 <= i < |names| :: CleanName(names[i])) ==> AuthorsOf(JoinNames(names)) == names
  {
    SplitHasNoSeparator(author, ';');
    NonBlankNamesAreClean(Split(author, ';'));
    if forall i | 0 <= i < |names| :: CleanName(names[i]) {
      CleanNamesStay(names);
      if names != [] {
        SplitJoinedNames(names);
      }
    }
  }

  /** The 25 characters that count as space. */
  lemma SpacesAre(c: char)
    ensures IsSpace(c) <==>
            c as int in {0x09, 0x0a, 0x0b, 0x0c, 0x0d, 0x20, 0x85, 0xa0, 0x1680,
                         0x2000, 0x2001, 0x2002, 0x2003, 0x2004, 0x2005, 0x2006, 0x2007, 0x2008, 0x2009, 0x200a,
                         0x2028, 0x2029, 0x202f, 0x205f, 0x3000}
  {
  }

  ghost predicate AllSpace(s: string) {
    forall i | 0 <= i < |s| :: IsSpace(s[i])
  }

  lemma {:induction false} TrimLeftExactly(s: string) returns (before: string)
    ensures s == before + TrimLeft(s) && AllSpace(before)
  {
    if s != "" && IsSpace(s[0]) {
      var rest := TrimLeftExactly(s[1..]);
      before := [s[0]] + rest;
    } else {
      before := "";
    }
  }

  lemma {:induction false} TrimRightExactly(s: string) returns (after: string)
    ensures s == TrimRight(s) + after && AllSpace(after)
  {
    if s != "" && IsSpace(s[|s| - 1]) {
      var rest := TrimRightExactly(s[..|s| - 1]);
      after := rest + [s[|s| - 1]];
    } else {
      after := "";
    }
  }

  /** Trimming takes off the spaces at both ends, all of them, and nothing else. */
  lemma TrimExactly(s: string) returns (before: string, after: string)
    ensures s == before + TrimSpace(s) + after && AllSpace(before) && AllSpace(after)
    ensures TrimSpace(s) != "" ==> !IsSpace(TrimSpace(s)[0]) && !IsSpace(TrimSpace(s)[|TrimSpace(s)| - 1])
  {
    before := TrimLeftExactly(s);
    after := TrimRightExactly(TrimLeft(s));
    TrimLeftEdges(s);
    TrimRightEdges(TrimLeft(s));
  }

  lemma {:induction false} NonBlankAppend(a: seq<string>, b: seq<string>)
    ensures NonBlank(a + b) == NonBlank(a) + NonBlank(b)
  {
    if b == [] {
      assert a + b == a;
    } else {
      NonBlankAppend(a, b[..|b| - 1]);
      assert (a + b)[..|a + b| - 1] == a + b[..|b| - 1];
    }
  }

  /** The authors are what stands between the semicolons, in order, each trimmed, without those that are blank. */
  lemma AuthorsExactly(first: string, rest: string)
    requires ';' !in first
    ensures AuthorsOf(first) == if TrimSpace(first) == "" then [] else [TrimSpace(first)]
    ensures AuthorsOf(first + ";" + rest) == AuthorsOf(first) + AuthorsOf(rest)
  {
    SplitUncut(first, ';');
    SplitAtFirst(first, rest, ';');
    NonBlankAppend([first], Split(rest, ';'));
  }

  // ---- The fetcher ----

  predicate Supported(mediaType: Option<string>) {
    mediaType.None? || mediaType.value in SUPPORTED
  }

  /** A page with its extracted fields filled in. */
  function Applied(tr: ExtractResult, p: Page, client: int): Page {
    p.(contentText := tr.contentText, canonicalURL := tr.url, title := tr.title, authors := Some(AuthorsOf(tr.author)),
       hostname := tr.hostname, description := tr.description, sitename := tr.sitename,
       date := if tr.date == ZERO_TIME then p.date else Some(tr.date),
       categories := tr.categories, tags := tr.tags, license := tr.license, language := tr.language,
       image := tr.image, pageType := tr.pageType, fetchMethod := client)
  }

  /** What a fetch returns: always a page, and an error. */
  function FetchedPage(url: Url, now: Time, answer: Answer, client: int): (Page, Option<string>) {
    var p := NewPage(url, now);
    match answer
    case GetFailed(error, httpStatus, respStatus) =>
      (p.(statusCode := Default(httpStatus, Default(respStatus, 0)), error := Some(error)), Some(error))
    case Got(statusCode, httpError, mediaType, extracted) =>
      var q := p.(statusCode := statusCode);
      if statusCode < 200 || statusCode >= 400 then (q.(error := Some(httpError)), Some(httpError))
      else if !Supported(mediaType) then
        (q.(error := Some(UnsupportedContentType(mediaType.value))), Some(UnsupportedContentType(mediaType.value)))
      else match extracted
        case Failure(e) => (q, Some(e))
        case Success(tr) => (Applied(tr, q, client), None)
  }

  class TrafilaturaFetcher {
    const client: int

    constructor (client: int)
      ensures this.client == client
    {
      this.client := client;
    }

    method Fetch(url: Url, now: Time, answer: Answer) returns (rval: WebPage, err: Option<string>)
      ensures fresh(rval)
      ensures (rval.page, err) == FetchedPage(url, now, answer, client)
    {
      rval := new WebPage(NewPage(url, now));
      match answer {
        case GetFailed(error, httpStatus, respStatus) =>
          if httpStatus.Some? {
            rval.page := rval.page.(statusCode := httpStatus.value);
          } else if respStatus.Some? {
            rval.page := rval.page.(statusCode := respStatus.value);
          }
          rval.page := rval.page.(error := Some(error));
          return rval, Some(error);
        case Got(statusCode, httpError, mediaType, extracted) =>
          rval.page := rval.page.(statusCode := statusCode);
          if statusCode >= 400 || statusCode < 200 {
            rval.page := rval.page.(error := Some(httpError));
            return rval, Some(httpError);
          }
          if mediaType.Some? && mediaType.value !in SUPPORTED {
            err := Some(UnsupportedContentType(mediaType.value));
            rval.page := rval.page.(error := err);
            return rval, err;
          }
          if extracted.Failure? {
            return rval, Some(extracted.error);
          }
          ApplyExtractResult(extracted.value, rval);
          return rval, None;
      }
    }

    method ApplyExtractResult(tr: ExtractResult, r: WebPage)
      modifies r
      ensures r.page == Applied(tr, old(r.page), client) && r.page.fetchMethod == client
      ensures old(r.page).date.None? ==> Extracted(tr, r.page)
      ensures r.page.statusCode == old(r.page).statusCode && r.page.error == old(r.page).error
      ensures r.page.requestedURL == old(r.page).requestedURL && r.page.fetchTime == old(r.page).fetchTime
    {
      var names := Split(tr.author, ';');
      var authors := [];
      for i := 0 to |names|
        invariant authors == NonBlank(names[..i])
      {
        var trimmed := TrimSpace(names[i]);
        assert names[..i + 1][..i] == names[..i];
        if trimmed != "" {
          authors := authors + [trimmed];
        }
      }
      assert names[..|names|] == names;
      r.page := r.page.(contentText := tr.contentText, canonicalURL := tr.url, title := tr.title);
      r.page := r.page.(authors := Some(authors));
      r.page := r.page.(hostname := tr.hostname, description := tr.description, sitename := tr.sitename);
      if tr.date != ZERO_TIME {
        r.page := r.page.(date := Some(tr.date));
      }
      r.page := r.page.(categories := tr.categories, tags := tr.tags, license := tr.license, language := tr.language);
      r.page := r.page.(image := tr.image, pageType := tr.pageType, fetchMethod := client);
    }
  }

  /** A page worth storing. */
  predicate Good(p: Page) {
    p.error.None? && 200 <= p.statusCode < 400
  }

  /** A page that holds what was extracted, each in its own field. */
  ghost predicate Extracted(tr: ExtractResult, p: Page) {
    && p.contentText == tr.contentText && p.canonicalURL == tr.url && p.title == tr.title && p.hostname == tr.hostname
    && p.description == tr.description && p.sitename == tr.sitename && p.license == tr.license
    && p.language == tr.language && p.image == tr.image && p.pageType == tr.pageType
    && p.authors == Some(AuthorsOf(tr.author)) && p.categories == tr.categories && p.tags == tr.tags
    && p.date == if tr.date == ZERO_TIME then None else Some(tr.date)
  }

  /** A page with nothing but its request, a status and perhaps an error. */
  ghost predicate Bare(p: Page) {
    && p.contentText == "" && p.canonicalURL.None? && p.title == "" && p.hostname == "" && p.description == ""
    && p.sitename == "" && p.license == "" && p.language == "" && p.image == "" && p.pageType == ""
    && p.authors.None? && p.categories.None? && p.tags.None? && p.date.None? && p.fetchMethod == 0
  }

  /** What every page of a fetch says of its request. */
  ghost predicate Requested(url: Url, now: Time, p: Page) {
    && p.requestedURL == Some(url) && p.originalURL == [] && p.ttl == 0 && p.id == "" && p.fingerprint == ""
    && p.skip == {} && p.fetchTime == Some(now / 1_000_000_000 * 1_000_000_000)
  }

  ghost predicate MediaTypeAllowed(mediaType: Option<string>) {
    mediaType.Some? ==> mediaType.value in {"text/html", "application/xhtml+xml", "text/plain"}
  }

  /** The error of a fetch and how it shows on the page: a failed extraction alone leaves the page without one. */
  ghost predicate FailsWith(answer: Answer, p: Page, err: Option<string>) {
    match answer
    case GetFailed(error, _, _) => err == Some(error) && p.error == err
    case Got(status, httpError, mediaType, extracted) =>
      if !(200 <= status < 400) then err == Some(httpError) && p.error == err
      else if !MediaTypeAllowed(mediaType) then
        err == Some("HTTP fetch error (415): Unsupported Media Type - " + mediaType.value) && p.error == err
      else extracted.Failure? && err == Some(extracted.error) && p.error.None?
  }

  /** A fetch succeeds exactly for a response of status 200 to 399, of a supported or unknown media type, whose text can be
      extracted. The page of a success holds everything extracted and no error; the page of a failure holds nothing but
      the request, the status and, unless only the extraction failed, the error. The status of a response is always
      kept, and so is the one that comes with an error, first of an HTTP error, then of a response beside it. */
  lemma FetchSucceedsExactly(url: Url, now: Time, answer: Answer, client: int)
    ensures
      var (p, err) := FetchedPage(url, now, answer, client);
      && (err.None? <==> answer.Got? && 200 <= answer.statusCode < 400 && MediaTypeAllowed(answer.mediaType)
                         && answer.extracted.Success?)
      && Requested(url, now, p)
      && (err.None? ==> Good(p) && Extracted(answer.extracted.value, p) && p.fetchMethod == client)
      && (err.Some? ==> Bare(p) && FailsWith(answer, p, err))
      && p.statusCode == match answer
                         case Got(status, _, _, _) => status
                         case GetFailed(_, Some(status), _) => status
                         case GetFailed(_, None, Some(status)) => status
                         case _ => 0
  {
    assert SUPPORTED[0] == "text/html" && SUPPORTED[1] == "application/xhtml+xml" && SUPPORTED[2] == "text/plain";
  }
}
