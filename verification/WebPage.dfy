/** Web pages and their JSON form, kept as a record in which an absent key is None. */
module WebPages {
  import opened Wrappers
  import opened Bits
  import opened Urls

  /** Nanoseconds since the Unix epoch; durations are nanoseconds as well. */
  type Time = int

  const SECOND := 1_000_000_000
  const DEFAULT_TTL := 30 * 24 * 3600 * SECOND
  /** Midnight of January 1st in the year 1, the zero value of a time. */
  const ZERO_TIME: Time := -62_135_596_800 * SECOND

  /** The years that JSON can write: from the start of year 0 to the end of year 9999. */
  const YEAR_0: Time := -62_167_219_200_000_000_000
  const YEAR_10000: Time := 253_402_300_800_000_000_000

  /** A list that may be nil. */
  type List = Option<seq<string>>

  /** The fetch clients a page can name. */
  const UNSPECIFIED := 0
  const DEFAULT_CLIENT := 1
  const HEADLESS_CHROMIUM := 2

  datatype Skippable = SkipCanonicalURL | SkipContentText | SkipOriginalURL | SkipFetchTime | SkipFetchMethod | SkipTTL

  datatype Page = Page(
    requestedURL: Option<Url>,
    canonicalURL: Option<Url>,
    originalURL: Bytes,
    ttl: int,
    fetchTime: Option<Time>,
    fetchMethod: int,
    hostname: string,
    statusCode: int,
    error: Option<string>,
    title: string,
    description: string,
    sitename: string,
    authors: List,
    date: Option<Time>,
    categories: List,
    tags: List,
    language: string,
    image: string,
    pageType: string,
    license: string,
    id: string,
    fingerprint: string,
    contentText: string,
    skip: set<Skippable>)

  const BLANK := Page(None, None, [], 0, None, UNSPECIFIED, "", 0, None, "", "", "", None, None, None, None,
                      "", "", "", "", "", "", "", {})

  datatype Json = Json(
    url: Option<Url>,
    requestedURL: Option<Url>,
    error: Option<string>,
    originalURL: Option<Bytes>,
    fetchTime: Option<Time>,
    fetchMethod: Option<string>,
    hostname: Option<string>,
    statusCode: Option<int>,
    title: Option<string>,
    description: Option<string>,
    sitename: Option<string>,
    authors: List,
    date: Option<Time>,
    categories: List,
    tags: List,
    language: Option<string>,
    image: Option<string>,
    pageType: Option<string>,
    license: Option<string>,
    id: Option<string>,
    fingerprint: Option<string>,
    contentText: Option<string>)

  datatype PageError = NoTTL | NoSuchFetchMethod | YearOutOfRange

  // ---- Values ----

  function MethodName(id: int): Option<string> {
    if id == UNSPECIFIED then Some("unspecified")
    else if id == DEFAULT_CLIENT then Some("direct")
    else if id == HEADLESS_CHROMIUM then Some("chromium-headless")
    else None
  }

  function MethodNamed(name: string): Option<int> {
    if name == "unspecified" then Some(UNSPECIFIED)
    else if name == "direct" then Some(DEFAULT_CLIENT)
    else if name == "chromium-headless" then Some(HEADLESS_CHROMIUM)
    else None
  }

  function OmitEmpty<T(==)>(s: seq<T>): Option<seq<T>> {
    if s == [] then None else Some(s)
  }

  function OmitEmptyList(l: List): List {
    if l == Some([]) then None else l
  }

  function OmitZero(t: Option<Time>): Option<Time> {
    if t == Some(ZERO_TIME) then None else t
  }

  function OmitBlankUrl(u: Option<Url>): Option<Url> {
    if u.Some? && u.value.Text() == [] then None else u
  }

  function Default<T>(o: Option<T>, otherwise: T): T {
    if o.Some? then o.value else otherwise
  }

  function OrKeep<T>(o: Option<T>, kept: Option<T>): Option<T> {
    if o.Some? then o else kept
  }

  function WholeSeconds(t: Time): int {
    t / SECOND
  }

  function Truncated(t: Time): Time {
    t / SECOND * SECOND
  }

  /** The page a fetch of `url` starts from. */
  function NewPage(url: Url, now: Time): Page {
    BLANK.(requestedURL := Some(url), fetchTime := Some(Truncated(now)))
  }

  /** A page with the fields named in its skip list emptied. */
  function Trimmed(p: Page): Page {
    p.(canonicalURL := if SkipCanonicalURL in p.skip then None else p.canonicalURL,
       contentText := if SkipContentText in p.skip then "" else p.contentText,
       originalURL := if SkipOriginalURL in p.skip then [] else p.originalURL,
       fetchTime := if SkipFetchTime in p.skip then None else p.fetchTime,
       fetchMethod := if SkipFetchMethod in p.skip then UNSPECIFIED else p.fetchMethod,
       ttl := if SkipTTL in p.skip then 0 else p.ttl)
  }

  /** What of a page a JSON document can express. The TTL has no key; an empty list, a zero time, an empty URL and an
      error with an empty message look like absent ones. */
  function Expressible(p: Page): Page {
    p.(requestedURL := OmitBlankUrl(p.requestedURL), canonicalURL := OmitBlankUrl(p.canonicalURL),
       ttl := 0, skip := {},
       fetchTime := OmitZero(p.fetchTime), date := OmitZero(p.date),
       error := if p.error == Some("") then None else p.error,
       authors := OmitEmptyList(p.authors), categories := OmitEmptyList(p.categories), tags := OmitEmptyList(p.tags))
  }

  predicate Writable(t: Option<Time>) {
    t.Some? ==> YEAR_0 <= t.value < YEAR_10000
  }

  /** The JSON record of the already trimmed fields. */
  function Encoded(p: Page): Result<Json, PageError> {
    if !Writable(p.fetchTime) then Failure(YearOutOfRange)
    else if p.fetchMethod != UNSPECIFIED && MethodName(p.fetchMethod).None? then Failure(NoSuchFetchMethod)
    else if !Writable(p.date) then Failure(YearOutOfRange)
    else Success(Json(
      OmitBlankUrl(p.canonicalURL), OmitBlankUrl(p.requestedURL),
      if p.error == Some("") then None else p.error,
      OmitEmpty(p.originalURL), OmitZero(p.fetchTime),
      if p.fetchMethod == UNSPECIFIED then None else MethodName(p.fetchMethod),
      OmitEmpty(p.hostname),
      if p.statusCode == 0 then None else Some(p.statusCode),
      OmitEmpty(p.title), OmitEmpty(p.description), OmitEmpty(p.sitename), OmitEmptyList(p.authors),
      OmitZero(p.date), OmitEmptyList(p.categories), OmitEmptyList(p.tags), OmitEmpty(p.language),
      OmitEmpty(p.image), OmitEmpty(p.pageType), OmitEmpty(p.license), OmitEmpty(p.id),
      OmitEmpty(p.fingerprint), OmitEmpty(p.contentText)))
  }

  /** The plain decoding of a document over a page: present keys replace fields, absent keys leave them. The URLs and
      the error are carried by keys of their own and stay as they were. */
  function DecodedPlain(j: Json, p: Page): Result<Page, PageError> {
    var fetchMethod := if j.fetchMethod.None? then Some(p.fetchMethod) else MethodNamed(j.fetchMethod.value);
    if fetchMethod.None? then Failure(NoSuchFetchMethod)
    else Success(p.(
      originalURL := Default(j.originalURL, p.originalURL), fetchTime := OrKeep(j.fetchTime, p.fetchTime),
      fetchMethod := fetchMethod.value, hostname := Default(j.hostname, p.hostname),
      statusCode := Default(j.statusCode, p.statusCode), title := Default(j.title, p.title),
      description := Default(j.description, p.description), sitename := Default(j.sitename, p.sitename),
      authors := OrKeep(j.authors, p.authors), date := OrKeep(j.date, p.date),
      categories := OrKeep(j.categories, p.categories), tags := OrKeep(j.tags, p.tags),
      language := Default(j.language, p.language), image := Default(j.image, p.image),
      pageType := Default(j.pageType, p.pageType), license := Default(j.license, p.license),
      id := Default(j.id, p.id), fingerprint := Default(j.fingerprint, p.fingerprint),
      contentText := Default(j.contentText, p.contentText)))
  }

  function Decoded(j: Json, p: Page): Result<Page, PageError> {
    var plain := DecodedPlain(j, p);
    if plain.Failure? then plain
    else Success(plain.value.(
      canonicalURL := OrKeep(j.url, p.canonicalURL), requestedURL := OrKeep(j.requestedURL, p.requestedURL),
      error := if j.error.Some? && j.error.value != "" then j.error else p.error,
      date := OmitZero(plain.value.date), fetchTime := OmitZero(plain.value.fetchTime)))
  }

  /** A page that can be saved: it names the URL that was requested and the one it is stored under, and JSON can write its
      date. */
  predicate Savable(p: Page) {
    p.requestedURL.Some? && p.canonicalURL.Some? && Writable(p.date)
  }

  /** A page whose saving dereferences a nil URL: the canonical one before anything is marshalled, or the requested one
      afterwards. */
  predicate SavePanics(p: Page) {
    p.canonicalURL.None? || (p.requestedURL.None? && Writable(p.date))
  }

  lemma EncodingRoundTrip(p: Page)
    requires Encoded(p).Success?
    ensures Decoded(Encoded(p).value, BLANK) == Success(Expressible(p))
  {
  }

  /** Marshalling and unmarshalling into a fresh page give back everything that is neither skipped nor inexpressible. */
  lemma JsonRoundTrip(p: Page)
    requires Encoded(Trimmed(p)).Success?
    ensures Decoded(Encoded(Trimmed(p)).value, BLANK) == Success(Expressible(Trimmed(p)))
  {
    EncodingRoundTrip(Trimmed(p));
  }

  /** With its skip list cleared a page marshals whole: its TTL apart, which has no key, unmarshalling gives back all of it
      that is expressible, whatever was skipped before. */
  lemma ClearedPageMarshalsWhole(p: Page)
    requires Encoded(Trimmed(p.(skip := {}))).Success?
    ensures Decoded(Encoded(Trimmed(p.(skip := {}))).value, BLANK) == Success(Expressible(p))
  {
    JsonRoundTrip(p.(skip := {}));
  }

  // ---- Documents key by key ----

  /** The days before January 1st of a year in the Gregorian calendar, from the year 0 on. */
  function DaysBefore(year: nat): nat {
    365 * year + (year + 3) / 4 - (year + 99) / 100 + (year + 399) / 400
  }

  function StartOf(year: nat): Time {
    (DaysBefore(year) - DaysBefore(1970)) * 24 * 3600 * 1_000_000_000
  }

  lemma TimesAreMidnights()
    ensures ZERO_TIME == StartOf(1) && YEAR_0 == StartOf(0) && YEAR_10000 == StartOf(10000)
    ensures DEFAULT_TTL == 2_592_000_000_000_000
  {
  }

  lemma WholeSecondOf(t: Time)
    ensures Truncated(t) == WholeSeconds(t) * 1_000_000_000
    ensures Truncated(t) <= t < Truncated(t) + 1_000_000_000
  {
  }

  /** A key is present when its field is not empty, and then holds it. */
  ghost predicate Holds(key: Option<string>, field: string) {
    if field == "" then key.None? else key == Some(field)
  }

  ghost predicate HoldsList(key: List, field: List) {
    if field.None? || field.value == [] then key.None? else key == field
  }

  ghost predicate HoldsTime(key: Option<Time>, field: Option<Time>) {
    if field.None? || field.value == ZERO_TIME then key.None? else key == field
  }

  ghost predicate HoldsUrl(key: Option<Url>, field: Option<Url>) {
    if field.None? || field.value.Text() == [] then key.None? else key == field
  }

  /** Which key of a document holds which field of a page that is marshalled with a skip list. */
  ghost predicate Writes(p: Page, skip: set<Skippable>, j: Json) {
    && (if SkipCanonicalURL in skip then j.url.None? else HoldsUrl(j.url, p.canonicalURL))
    && (if SkipContentText in skip then j.contentText.None? else Holds(j.contentText, p.contentText))
    && (if SkipOriginalURL in skip || p.originalURL == [] then j.originalURL.None?
        else j.originalURL == Some(p.originalURL))
    && (if SkipFetchTime in skip then j.fetchTime.None? else HoldsTime(j.fetchTime, p.fetchTime))
    && (if SkipFetchMethod in skip then j.fetchMethod.None? else WritesMethod(p.fetchMethod, j.fetchMethod))
    && WritesAlways(p, j)
  }

  ghost predicate WritesMethod(id: int, key: Option<string>) {
    if id == 0 then key.None? else key == Some(if id == 1 then "direct" else "chromium-headless")
  }

  ghost predicate WritesAlways(p: Page, j: Json) {
    && HoldsUrl(j.requestedURL, p.requestedURL) && Holds(j.hostname, p.hostname) && Holds(j.title, p.title)
    && Holds(j.description, p.description) && Holds(j.sitename, p.sitename) && Holds(j.language, p.language)
    && Holds(j.image, p.image) && Holds(j.pageType, p.pageType) && Holds(j.license, p.license)
    && Holds(j.id, p.id) && Holds(j.fingerprint, p.fingerprint)
    && HoldsList(j.authors, p.authors) && HoldsList(j.categories, p.categories) && HoldsList(j.tags, p.tags)
    && HoldsTime(j.date, p.date)
    && (if p.error.None? then j.error.None? else Holds(j.error, p.error.value))
    && j.statusCode == if p.statusCode == 0 then None else Some(p.statusCode)
  }

  /** A page marshals unless a time that is not skipped has a year JSON cannot write or its fetch client has no name; and
      the document then holds every field that is not skipped, each under its own key. */
  lemma DocumentExactly(p: Page)
    ensures
      var doc := Encoded(Trimmed(p));
      && (doc.Success? <==> (SkipFetchTime in p.skip || Writable(p.fetchTime)) && Writable(p.date)
                            && (SkipFetchMethod in p.skip || 0 <= p.fetchMethod <= 2))
      && (doc.Success? ==> Writes(p, p.skip, doc.value))
  {
  }

  /** A field after a document was read over it. */
  ghost predicate Takes<T>(after: T, key: Option<T>, before: T) {
    after == if key.Some? then key.value else before
  }

  ghost predicate TakesTime(after: Option<Time>, key: Option<Time>, before: Option<Time>) {
    var taken := if key.Some? then key else before;
    after == if taken == Some(ZERO_TIME) then None else taken
  }

  /** What becomes of a page over which a document is read. */
  ghost predicate Reads(j: Json, p: Page, q: Page) {
    && Takes(q.originalURL, j.originalURL, p.originalURL) && Takes(q.hostname, j.hostname, p.hostname)
    && Takes(q.statusCode, j.statusCode, p.statusCode) && Takes(q.title, j.title, p.title)
    && Takes(q.description, j.description, p.description) && Takes(q.sitename, j.sitename, p.sitename)
    && Takes(q.language, j.language, p.language) && Takes(q.image, j.image, p.image)
    && Takes(q.pageType, j.pageType, p.pageType) && Takes(q.license, j.license, p.license) && Takes(q.id, j.id, p.id)
    && Takes(q.fingerprint, j.fingerprint, p.fingerprint) && Takes(q.contentText, j.contentText, p.contentText)
    && ReadsOptional(j, p, q)
  }

  ghost predicate ReadsOptional(j: Json, p: Page, q: Page) {
    && q.canonicalURL == (if j.url.Some? then j.url else p.canonicalURL)
    && q.requestedURL == (if j.requestedURL.Some? then j.requestedURL else p.requestedURL)
    && q.error == (if j.error.Some? && j.error.value != "" then j.error else p.error)
    && q.authors == (if j.authors.Some? then j.authors else p.authors)
    && q.categories == (if j.categories.Some? then j.categories else p.categories)
    && q.tags == (if j.tags.Some? then j.tags else p.tags)
    && TakesTime(q.date, j.date, p.date) && TakesTime(q.fetchTime, j.fetchTime, p.fetchTime)
    && q.ttl == p.ttl && q.skip == p.skip
    && match j.fetchMethod
       case None => q.fetchMethod == p.fetchMethod
       case Some(name) => 0 <= q.fetchMethod <= 2 && name == ["unspecified", "direct", "chromium-headless"][q.fetchMethod]
  }

  /** A document is read unless it names an unknown fetch client: a present key replaces its field, an absent one keeps it,
      and a zero time becomes an absent one. */
  lemma DecodedExactly(j: Json, p: Page)
    ensures
      var q := Decoded(j, p);
      && (q.Success? <==> j.fetchMethod.None? || j.fetchMethod.value in {"unspecified", "direct", "chromium-headless"})
      && (q.Success? ==> Reads(j, p, q.value))
  {
  }

  // ---- The page object ----

  /** A page held by reference: every holder sees each field assignment. */
  class WebPage {
    var page: Page

    constructor (p: Page)
      ensures page == p
    {
      page := p;
    }

    method ExpireTime(now: Time) returns (r: Result<Time, PageError>)
      ensures r == Failure(NoTTL) <==> page.ttl == 0
      ensures page.ttl != 0 ==> r == Success((if page.fetchTime.Some? then page.fetchTime.value else now) + page.ttl)
    {
      if page.ttl == 0 {
        return Failure(NoTTL);
      }
      var t := page.fetchTime;
      if t.None? {
        t := Some(now);
      }
      return Success(t.value + page.ttl);
    }

    method ClearSkipWhenMarshaling()
      modifies this
      ensures page == old(page).(skip := {})
    {
      page := page.(skip := {});
    }

    method SkipWhenMarshaling(skip: seq<Skippable>)
      modifies this
      ensures page == old(page).(skip := set s | s in skip)
    {
      page := page.(skip := {});
      for i := 0 to |skip|
        invariant page == old(page).(skip := set s | s in skip[..i])
      {
        page := page.(skip := page.skip + {skip[i]});
      }
      assert skip[..|skip|] == skip;
    }

    /** Visits the skip list in an arbitrary order; the document does not depend on it. */
    method MarshalJSON() returns (r: Result<Json, PageError>)
      ensures r == Encoded(Trimmed(page))
    {
      var ar := page;
      var todo := page.skip;
      while todo != {}
        invariant todo <= page.skip
        invariant ar == Trimmed(page.(skip := page.skip - todo)).(skip := page.skip)
        decreases |todo|
      {
        var s :| s in todo;
        match s {
          case SkipCanonicalURL => ar := ar.(canonicalURL := None);
          case SkipContentText => ar := ar.(contentText := "");
          case SkipOriginalURL => ar := ar.(originalURL := []);
          case SkipFetchTime => ar := ar.(fetchTime := None);
          case SkipFetchMethod => ar := ar.(fetchMethod := UNSPECIFIED);
          case SkipTTL => ar := ar.(ttl := 0);
        }
        todo := todo - {s};
      }
      assert page.skip - todo == page.skip;
      r := Encoded(ar);
    }

    method UnmarshalJSON(data: Json) returns (error: Option<PageError>)
      modifies this
      ensures error == None ==> Decoded(data, old(page)) == Success(page)
      ensures error != None ==> Decoded(data, old(page)) == Failure(error.value)
    {
      var plain := DecodedPlain(data, page);
      if plain.Failure? {
        return Some(plain.error);
      }
      page := plain.value;
      if data.url.Some? {
        page := page.(canonicalURL := data.url);
      }
      if data.requestedURL.Some? {
        page := page.(requestedURL := data.requestedURL);
      }
      if data.error.Some? && data.error.value != "" {
        page := page.(error := data.error);
      }
      if page.date == Some(ZERO_TIME) {
        page := page.(date := None);
      }
      if page.fetchTime == Some(ZERO_TIME) {
        page := page.(fetchTime := None);
      }
      return None;
    }
  }
}
