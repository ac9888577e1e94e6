/** The two-table page cache: `urls` holds pages under the key of their canonical URL, `id_map` sends the key of a
    requested URL to the key of the canonical one. Every SQL statement is one atomic map operation that may fail. */
module UrlStore {
  import opened Wrappers
  import opened Urls
  import opened WebPages
  import Handles
  import Keys

  type Key = Keys.Key

  /** A row of `urls`. Times are whole seconds. Text columns holding URLs are kept parsed. */
  datatype Row = Row(
    url: Url, parsedURL: Url, fetchTime: int, expires: int, metadata: Json, contentText: string, fetchMethod: int)

  datatype Tables = Tables(urls: map<Key, Row>, idMap: map<Key, Key>)

  const EMPTY := Tables(map[], map[])

  /** The errors of the store, and the panic of a save that dereferences a nil URL. */
  datatype StoreError = ResourceNotFound | StatementFailed | BadPage(error: PageError) | NilURL

  /** Which of the two statements of an operation fails, if any. */
  datatype Fault = NoFault | FirstFails | SecondFails

  const ANY_URL := Url([], [], false, [], [])

  type SavablePage = p: Page | Savable(p)
    witness BLANK.(requestedURL := Some(ANY_URL), canonicalURL := Some(ANY_URL))

  const STORE_SKIPS := [SkipCanonicalURL, SkipContentText, SkipOriginalURL, SkipFetchTime, SkipFetchMethod]

  // ---- Saving ----

  /** The fetch time of a page once it is saved: its own, or the second of the save. */
  function FetchedAt(p: Page, at: Time): Time {
    if p.fetchTime.None? || p.fetchTime == Some(ZERO_TIME) then Truncated(at) else p.fetchTime.value
  }

  /** How long it is to be kept: thirty days unless it says otherwise. */
  function Lifetime(p: Page): int {
    if p.ttl == 0 then DEFAULT_TTL else p.ttl
  }

  /** The TTL and fetch time that saving writes into a page lacking them. */
  function WithDefaults(p: Page, now: Time): (q: Page)
    ensures Completes(p, now, q) && (Savable(p) <==> Savable(q)) && (SavePanics(p) <==> SavePanics(q))
  {
    p.(ttl := Lifetime(p), fetchTime := Some(FetchedAt(p, now)))
  }

  /** A page as saving leaves it: nothing changes but an absent or zero TTL and an absent or zero fetch time. */
  ghost predicate Completes(p: Page, now: Time, q: Page) {
    && q.(ttl := p.ttl, fetchTime := p.fetchTime) == p && q.fetchTime.Some?
    && q.ttl == (if p.ttl == 0 then 30 * 24 * 3600 * 1_000_000_000 else p.ttl)
    && if p.fetchTime.Some? && p.fetchTime.value != ZERO_TIME then q.fetchTime == p.fetchTime
       else q.fetchTime.value % 1_000_000_000 == 0 && q.fetchTime.value <= now < q.fetchTime.value + 1_000_000_000
  }

  /** A page without what the table keeps in columns of its own. */
  function Stripped(p: Page): Page {
    p.(canonicalURL := None, contentText := "", originalURL := [], fetchTime := None, fetchMethod := UNSPECIFIED)
  }

  function Metadata(p: Page): Result<Json, PageError> {
    Encoded(Stripped(p))
  }

  function MetadataOf(p: SavablePage): Json {
    MetadataMarshalsExactly(p);
    Metadata(p).value
  }

  /** The row stored for a page that already has its defaults. */
  function RowOf(p: SavablePage): (row: Row)
    requires p.fetchTime.Some?
    ensures row.expires * SECOND == Truncated(p.fetchTime.value + p.ttl)
  {
    RowWith(p, MetadataOf(p))
  }

  function RowWith(p: Page, metadata: Json): (row: Row)
    requires p.canonicalURL.Some? && p.requestedURL.Some? && p.fetchTime.Some?
    ensures row.expires * SECOND == Truncated(p.fetchTime.value + p.ttl)
  {
    Row(p.canonicalURL.value, p.requestedURL.value, WholeSeconds(p.fetchTime.value),
        WholeSeconds(p.fetchTime.value + p.ttl), metadata, p.contentText, p.fetchMethod)
  }

  /** With fetch time and fetch method skipped, the date alone can keep the metadata from being marshalled. */
  lemma MetadataMarshalsExactly(p: Page)
    ensures Metadata(p) == if Writable(p.date) then Success(Metadata(p).value) else Failure(YearOutOfRange)
  {
  }

  /** The skip list of a save leaves exactly the stripped page to be marshalled. */
  lemma SkippedIsStripped(p: Page)
    ensures
      var skipping := p.(skip := set s | s in STORE_SKIPS);
      Trimmed(skipping) == Stripped(p).(skip := skipping.skip)
  {
    assert STORE_SKIPS[0] == SkipCanonicalURL && STORE_SKIPS[1] == SkipContentText
           && STORE_SKIPS[2] == SkipOriginalURL && STORE_SKIPS[3] == SkipFetchTime && STORE_SKIPS[4] == SkipFetchMethod;
  }

  lemma EncodingIgnoresSkips(p: Page, skip: set<Skippable>)
    ensures Encoded(p.(skip := skip)) == Encoded(p)
  {
  }

  /** The moment from which a page saved at a given time counts as expired. */
  function Deadline(p: Page, at: Time): Time {
    Truncated(FetchedAt(p, at) + Lifetime(p))
  }

  function StoredRow(p: SavablePage, now: Time): (row: Row)
    ensures row.expires * SECOND == Deadline(p, now)
  {
    RowOf(WithDefaults(p, now))
  }

  /** The columns of a page that already has its defaults, computed before the first statement. */
  function Columns(p: Page): Result<Row, StoreError>
    requires p.fetchTime.Some?
  {
    if p.canonicalURL.None? then Failure(NilURL)
    else match Metadata(p)
      case Failure(e) => Failure(BadPage(e))
      case Success(metadata) => if p.requestedURL.None? then Failure(NilURL) else Success(RowWith(p, metadata))
  }

  function WriteUrl(t: Tables, p: SavablePage, now: Time): Tables {
    t.(urls := t.urls[p.canonicalURL.value.Key() := StoredRow(p, now)])
  }

  function WriteMap(t: Tables, p: SavablePage): Tables {
    t.(idMap := t.idMap[p.requestedURL.value.Key() := p.canonicalURL.value.Key()])
  }

  function Saved(t: Tables, p: SavablePage, now: Time, fault: Fault): Tables {
    match fault
    case FirstFails => t
    case SecondFails => WriteUrl(t, p, now)
    case NoFault => WriteMap(WriteUrl(t, p, now), p)
  }

  // ---- Fetching ----

  predicate Expired(row: Row, now: Time) {
    now > row.expires * SECOND
  }

  /** A page completed from the columns that its metadata does not repeat. */
  function OverRow(p: Page, row: Row): Page {
    p.(canonicalURL := Some(row.url), requestedURL := Some(row.parsedURL), fetchTime := Some(row.fetchTime * SECOND),
       ttl := (row.expires - row.fetchTime) * SECOND, contentText := row.contentText, fetchMethod := row.fetchMethod)
  }

  /** The page a row holds. */
  function PageOf(row: Row): Result<Page, StoreError> {
    match Decoded(row.metadata, BLANK)
    case Failure(e) => Failure(BadPage(e))
    case Success(p) => Success(OverRow(p, row))
  }

  function ReadRow(row: Option<Row>, now: Time): Result<Page, StoreError> {
    if row.None? || Expired(row.value, now) then Failure(ResourceNotFound) else PageOf(row.value)
  }

  function RowAt(t: Tables, key: Key): Option<Row> {
    if key in t.urls then Some(t.urls[key]) else None
  }

  /** The key a requested key leads to. */
  function Resolve(t: Tables, requested: Key): Key {
    if requested in t.idMap then t.idMap[requested] else requested
  }

  function Fetched(t: Tables, url: Url, now: Time, fault: Fault): Result<Page, StoreError> {
    if fault != NoFault then Failure(StatementFailed)
    else ReadRow(RowAt(t, Resolve(t, url.Key())), now)
  }

  /** The maintenance statement: rows whose expiry lies before the current whole second go. */
  function Collected(t: Tables, now: Time): Tables {
    t.(urls := map k | k in t.urls && t.urls[k].expires >= WholeSeconds(now) :: t.urls[k])
  }

  function Deleted(t: Tables, url: Url): Tables {
    t.(urls := t.urls - {url.Key()})
  }

  /** Clearing empties the pages and then the mappings. */
  function Emptied(t: Tables, fault: Fault): Tables {
    match fault
    case FirstFails => t
    case SecondFails => t.(urls := map[])
    case NoFault => EMPTY
  }

  // ---- The store ----

  class URLDataStore {
    const dbh: Handles.DBHandle
    var urls: map<Key, Row>
    var idMap: map<Key, Key>

    constructor (dbh: Handles.DBHandle)
      ensures this.dbh == dbh && Contents() == EMPTY
    {
      this.dbh := dbh;
      urls, idMap := map[], map[];
    }

    function Contents(): Tables
      reads this
    {
      Tables(urls, idMap)
    }

    /** Writes the defaults into its argument, then the page, then the mapping. A page that is not savable is an error or a
        panic, and leaves the tables alone. */
    method Save(uptr: WebPage, now: Time, fault: Fault) returns (r: Result<Key, StoreError>)
      modifies this, uptr
      ensures uptr.page == WithDefaults(old(uptr.page), now) && Completes(old(uptr.page), now, uptr.page)
      ensures r == Failure(NilURL) <==> SavePanics(old(uptr.page))
      ensures !Savable(old(uptr.page)) ==> Contents() == old(Contents())
      ensures !Savable(old(uptr.page)) && !SavePanics(old(uptr.page)) ==> r == Failure(BadPage(YearOutOfRange))
      ensures Savable(old(uptr.page)) ==>
                var key := old(uptr.page).canonicalURL.value.Key();
                && Contents() == Saved(old(Contents()), old(uptr.page), now, fault)
                && urls == (if fault == FirstFails then old(urls) else old(urls)[key := StoredRow(old(uptr.page), now)])
                && idMap == (if fault == NoFault then old(idMap)[old(uptr.page).requestedURL.value.Key() := key]
                             else old(idMap))
                && r == if fault == NoFault then Success(key) else Failure(StatementFailed)
    {
      var values := ColumnValues(uptr, now);
      MetadataMarshalsExactly(uptr.page);
      if values.Failure? {
        return Failure(values.error);
      }
      var key := uptr.page.canonicalURL.value.Key();
      if fault == FirstFails {
        return Failure(StatementFailed);
      }
      urls := urls[key := values.value];
      var stored := StoreIdMap(uptr.page.requestedURL.value, key, fault == SecondFails);
      if !stored {
        return Failure(StatementFailed);
      }
      return Success(key);
    }

    /** Fills in the defaults, then marshals a copy so that its skip list never shows on the original. */
    method ColumnValues(uptr: WebPage, now: Time) returns (values: Result<Row, StoreError>)
      modifies uptr
      ensures uptr.page == WithDefaults(old(uptr.page), now)
      ensures values == Columns(uptr.page)
    {
      if uptr.page.ttl == 0 {
        uptr.page := uptr.page.(ttl := DEFAULT_TTL);
      }
      if uptr.page.fetchTime.None? || uptr.page.fetchTime == Some(ZERO_TIME) {
        uptr.page := uptr.page.(fetchTime := Some(Truncated(now)));
      }
      var expireTime := uptr.ExpireTime(now);
      if uptr.page.canonicalURL.None? {
        return Failure(NilURL);
      }
      var metadata := MarshalCopy(uptr);
      if metadata.Failure? {
        return Failure(BadPage(metadata.error));
      }
      if uptr.page.requestedURL.None? {
        return Failure(NilURL);
      }
      return Success(Row(uptr.page.canonicalURL.value, uptr.page.requestedURL.value,
                         WholeSeconds(uptr.page.fetchTime.value), WholeSeconds(expireTime.value),
                         metadata.value, uptr.page.contentText, uptr.page.fetchMethod));
    }

    method MarshalCopy(uptr: WebPage) returns (metadata: Result<Json, PageError>)
      ensures metadata == Metadata(uptr.page)
    {
      var ucopy := new WebPage(uptr.page);
      ucopy.SkipWhenMarshaling(STORE_SKIPS);
      metadata := ucopy.MarshalJSON();
      SkippedIsStripped(uptr.page);
      EncodingIgnoresSkips(Stripped(uptr.page), ucopy.page.skip);
    }

    method StoreIdMap(requested: Url, canonicalID: Key, fails: bool) returns (ok: bool)
      modifies this`idMap
      ensures ok == !fails
      ensures idMap == if fails then old(idMap) else old(idMap)[requested.Key() := canonicalID]
    {
      if fails {
        return false;
      }
      idMap := idMap[requested.Key() := canonicalID];
      return true;
    }

    method LookupId(requested: Key) returns (key: Option<Key>)
      ensures key == if requested in idMap then Some(idMap[requested]) else None
    {
      key := if requested in idMap then Some(idMap[requested]) else None;
    }

    method Fetch(url: Url, now: Time, fault: Fault) returns (res: WebPage?, err: Option<StoreError>)
      ensures Fetched(Contents(), url, now, fault) ==
              if err.Some? then Failure(err.value) else if res != null then Success(res.page) else Success(BLANK)
      ensures err.Some? <==> res == null
      ensures res != null ==> fresh(res)
    {
      if fault == FirstFails {
        return null, Some(StatementFailed);
      }
      var requested := url.Key();
      var mapped := LookupId(requested);
      var key := if mapped.Some? then mapped.value else requested;
      if fault == SecondFails {
        return null, Some(StatementFailed);
      }
      if key !in urls {
        return null, Some(ResourceNotFound);
      }
      var row := urls[key];
      var exptime := row.expires * SECOND;
      if now > exptime {
        return null, Some(ResourceNotFound);
      }
      var page := new WebPage(BLANK);
      var bad := page.UnmarshalJSON(row.metadata);
      if bad.Some? {
        return null, Some(BadPage(bad.value));
      }
      var fetchTime := row.fetchTime * SECOND;
      page.page := page.page.(canonicalURL := Some(row.url), requestedURL := Some(row.parsedURL));
      page.page := page.page.(fetchTime := Some(fetchTime), ttl := exptime - fetchTime);
      page.page := page.page.(contentText := row.contentText, fetchMethod := row.fetchMethod);
      return page, None;
    }

    /** Deletes a page only; mappings to it stay. */
    method Delete(url: Url, fails: bool) returns (r: Result<bool, StoreError>)
      modifies this`urls
      ensures fails ==> r == Failure(StatementFailed) && unchanged(this)
      ensures !fails ==> r == Success(url.Key() in old(urls)) && Contents() == Deleted(old(Contents()), url)
      ensures !fails ==> urls == old(urls) - {url.Key()}
    {
      if fails {
        return Failure(StatementFailed);
      }
      var key := url.Key();
      r := Success(key in urls);
      urls := urls - {key};
    }

    /** Two statements in one execution and no transaction: it can break off between them. */
    method Clear(fault: Fault) returns (ok: bool)
      modifies this
      ensures ok == (fault == NoFault)
      ensures Contents() == Emptied(old(Contents()), fault)
      ensures urls == (if fault == FirstFails then old(urls) else map[])
      ensures idMap == (if fault == NoFault then map[] else old(idMap))
    {
      if fault == FirstFails {
        return false;
      }
      urls := map[];
      if fault == SecondFails {
        return false;
      }
      idMap := map[];
      return true;
    }

    /** Deletes exactly the rows that a fetch at the start of the current second would refuse. */
    method Maintain(now: Time)
      modifies this`urls
      ensures Contents() == Collected(old(Contents()), now)
      ensures forall k :: k in urls <==> k in old(urls) && !Expired(old(urls)[k], now / 1_000_000_000 * 1_000_000_000)
      ensures forall k | k in urls :: urls[k] == old(urls)[k]
    {
      urls := map k | k in urls && urls[k].expires >= WholeSeconds(now) :: urls[k];
    }
  }

  // ---- Round trip and expiry ----

  /** What comes back from the store of a page saved at a given time: the original URL is gone, empty lists, zero dates and
      empty error messages look absent, the fetch time is a whole second, and the TTL runs from it to the whole second of
      expiry. */
  function Restored(p: Page, at: Time): Page {
    p.(originalURL := [], skip := {},
       error := if p.error == Some("") then None else p.error,
       authors := OmitEmptyList(p.authors), date := OmitZero(p.date),
       categories := OmitEmptyList(p.categories), tags := OmitEmptyList(p.tags),
       fetchTime := Some(Truncated(FetchedAt(p, at))),
       ttl := Deadline(p, at) - Truncated(FetchedAt(p, at)))
  }

  /** The same page but for what a row does not keep. */
  ghost predicate SamePage(p: Page, q: Page) {
    && q.requestedURL == p.requestedURL && q.canonicalURL == p.canonicalURL && q.hostname == p.hostname
    && q.statusCode == p.statusCode && q.fetchMethod == p.fetchMethod && q.title == p.title
    && q.description == p.description && q.sitename == p.sitename && q.language == p.language && q.image == p.image
    && q.pageType == p.pageType && q.license == p.license && q.id == p.id && q.fingerprint == p.fingerprint
    && q.contentText == p.contentText && q.originalURL == []
    && q.error == (if p.error == Some("") then None else p.error)
    && q.authors == (if p.authors == Some([]) then None else p.authors)
    && q.categories == (if p.categories == Some([]) then None else p.categories)
    && q.tags == (if p.tags == Some([]) then None else p.tags)
    && q.date == (if p.date == Some(ZERO_TIME) then None else p.date)
  }

  /** The second in which a page was fetched, and the one up to which it is kept, if it is saved at a given time. */
  ghost predicate KeptFromTo(p: Page, at: Time, from: Time, to: Time) {
    var start := if p.fetchTime.Some? && p.fetchTime.value != ZERO_TIME then p.fetchTime.value else at;
    && from == start / 1_000_000_000 * 1_000_000_000
    && to == (if p.fetchTime.Some? && p.fetchTime.value != ZERO_TIME then start else from)
             + (if p.ttl == 0 then 2_592_000 * 1_000_000_000 else p.ttl)
  }

  lemma StoredRowReadsBack(p: SavablePage, at: Time)
    ensures PageOf(StoredRow(p, at)) == Success(Restored(p, at))
  {
    RestoredFromRow(WithDefaults(p, at), p, at);
  }

  /** A saved page comes back, from any tables, until the whole second of its expiry and never later. */
  lemma SaveFetchRoundTrip(t: Tables, p: SavablePage, saved: Time, now: Time) returns (from: Time, to: Time)
    ensures KeptFromTo(p, saved, from, to)
    ensures
      var fetched := Fetched(Saved(t, p, saved, NoFault), p.requestedURL.value, now, NoFault);
      && fetched == (if now > Deadline(p, saved) then Failure(ResourceNotFound) else Success(Restored(p, saved)))
      && (fetched.Success? <==> now <= to / 1_000_000_000 * 1_000_000_000)
      && (fetched.Success? ==> SamePage(p, fetched.value) && fetched.value.fetchTime == Some(from)
                               && from + fetched.value.ttl == to / 1_000_000_000 * 1_000_000_000)
  {
    from := Truncated(FetchedAt(p, saved));
    to := FetchedAt(p, saved) + Lifetime(p);
    RoundTripOf(t, p, saved, now);
  }

  lemma RoundTripOf(t: Tables, p: SavablePage, saved: Time, now: Time)
    ensures
      Fetched(Saved(t, p, saved, NoFault), p.requestedURL.value, now, NoFault) ==
      if now > Deadline(p, saved) then Failure(ResourceNotFound) else Success(Restored(p, saved))
  {
    var requested, canonical := p.requestedURL.value.Key(), p.canonicalURL.value.Key();
    var t' := Saved(t, p, saved, NoFault);
    assert Resolve(t', requested) == canonical;
    assert RowAt(t', canonical) == Some(StoredRow(p, saved));
    StoredRowReadsBack(p, saved);
  }

  lemma RestoredFromRow(q: SavablePage, p: SavablePage, at: Time)
    requires q == WithDefaults(p, at)
    ensures PageOf(RowOf(q)) == Success(Restored(p, at))
  {
    MetadataMarshalsExactly(q);
    EncodingRoundTrip(Stripped(q));
    PageOfRow(RowOf(q), Expressible(Stripped(q)));
    OverlayRestores(q, p, at, MetadataOf(q));
  }

  lemma PageOfRow(row: Row, decoded: Page)
    requires Decoded(row.metadata, BLANK) == Success(decoded)
    ensures PageOf(row) == Success(OverRow(decoded, row))
  {
  }

  lemma OverlayRestores(q: SavablePage, p: SavablePage, at: Time, metadata: Json)
    requires q == WithDefaults(p, at)
    ensures OverRow(Expressible(Stripped(q)), RowWith(q, metadata)) == Restored(p, at)
  {
  }

  /** The columns of the row of a page, and that its metadata repeats none of them. */
  lemma ColumnsExactly(p: SavablePage, at: Time)
    ensures
      var row, q := StoredRow(p, at), WithDefaults(p, at);
      && row.url == p.canonicalURL.value && row.parsedURL == p.requestedURL.value
      && row.contentText == p.contentText && row.fetchMethod == p.fetchMethod
      && row.fetchTime == q.fetchTime.value / 1_000_000_000
      && row.expires == (q.fetchTime.value + q.ttl) / 1_000_000_000
      && Writes(p, {SkipCanonicalURL, SkipContentText, SkipOriginalURL, SkipFetchTime, SkipFetchMethod}, row.metadata)
  {
    MetadataMarshalsExactly(WithDefaults(p, at));
  }

  /** The returned TTL is within a second of the saved one, and is the saved one rounded down when the fetch time was a
      whole second. */
  lemma RestoredTTL(p: Page, at: Time)
    ensures -SECOND < Restored(p, at).ttl - Lifetime(p) < SECOND
    ensures FetchedAt(p, at) % SECOND == 0 ==> Restored(p, at).ttl == Truncated(Lifetime(p))
  {
  }

  /** Maintenance at one time changes no fetch at that time or later. */
  lemma CollectionInvisible(t: Tables, collected: Time, url: Url, now: Time, fault: Fault)
    requires collected <= now
    ensures Fetched(Collected(t, collected), url, now, fault) == Fetched(t, url, now, fault)
  {
    var key := Resolve(t, url.Key());
    if key in t.urls && t.urls[key].expires < WholeSeconds(collected) {
      SecondsBehind(t.urls[key].expires, collected);
    }
  }

  lemma SecondsBehind(expires: int, t: Time)
    requires expires < WholeSeconds(t)
    ensures expires * SECOND < t
  {
  }

  // ---- The log ----

  datatype Op =
    | SaveOp(page: SavablePage, at: Time, fault: Fault)
    | DeleteOp(url: Url)
    | ClearOp(fault: Fault)
    | MaintainOp(at: Time)

  function Apply(t: Tables, op: Op): Tables {
    match op
    case SaveOp(p, at, fault) => Saved(t, p, at, fault)
    case DeleteOp(url) => Deleted(t, url)
    case ClearOp(fault) => Emptied(t, fault)
    case MaintainOp(at) => Collected(t, at)
  }

  function Run(log: seq<Op>): Tables {
    if log == [] then EMPTY else Apply(Run(log[..|log| - 1]), log[|log| - 1])
  }

  /** Scanning back for the canonical key last stored for a requested key. */
  function LogTarget(log: seq<Op>, requested: Key): Key {
    if log == [] then requested
    else
      var rest := log[..|log| - 1];
      match log[|log| - 1]
      case SaveOp(p, _, NoFault) =>
        if p.requestedURL.value.Key() == requested then p.canonicalURL.value.Key() else LogTarget(rest, requested)
      case ClearOp(NoFault) => requested
      case _ => LogTarget(rest, requested)
  }

  /** Scanning back for the save that last wrote under a key and has not been undone. Maintenance is not looked at. */
  function LogSave(log: seq<Op>, key: Key): Option<(SavablePage, Time)> {
    if log == [] then None
    else
      var rest := log[..|log| - 1];
      match log[|log| - 1]
      case SaveOp(p, at, fault) =>
        if fault != FirstFails && p.canonicalURL.value.Key() == key then Some((p, at)) else LogSave(rest, key)
      case DeleteOp(url) => if url.Key() == key then None else LogSave(rest, key)
      case ClearOp(fault) => if fault != FirstFails then None else LogSave(rest, key)
      case MaintainOp(_) => LogSave(rest, key)
  }

  /** What the log says a fetch should give: the page last saved under the key last reported, as long as it has not
      expired. Nothing here knows of rows. */
  function LogFetch(log: seq<Op>, url: Url, now: Time): Result<Page, StoreError> {
    match LogSave(log, LogTarget(log, url.Key()))
    case None => Failure(ResourceNotFound)
    case Some((p, at)) =>
      if now > Deadline(p, at) then Failure(ResourceNotFound) else Success(Restored(p, at))
  }

  ghost predicate MaintainedBy(log: seq<Op>, now: Time) {
    forall op | op in log && op.MaintainOp? :: op.at <= now
  }

  /** The key a lookup leads to is the canonical key of the last complete save of the requested key since the last
      complete clear, or the requested key itself if there is none. */
  lemma {:induction false} TargetRefines(log: seq<Op>, requested: Key)
    ensures Resolve(Run(log), requested) == LogTarget(log, requested)
  {
    if log != [] {
      TargetRefines(log[..|log| - 1], requested);
    }
  }

  /** A row is the one its save wrote; a save without its row has expired. */
  ghost predicate RowOfSave(row: Option<Row>, save: Option<(SavablePage, Time)>, now: Time) {
    if row.Some? then save.Some? && row.value == StoredRow(save.value.0, save.value.1)
    else save.Some? ==> Expired(StoredRow(save.value.0, save.value.1), now)
  }

  lemma SavedRowAt(t: Tables, p: SavablePage, at: Time, fault: Fault, key: Key)
    ensures RowAt(Saved(t, p, at, fault), key) ==
            if fault != FirstFails && p.canonicalURL.value.Key() == key then Some(StoredRow(p, at)) else RowAt(t, key)
  {
  }

  lemma CollectedRowAt(t: Tables, at: Time, key: Key, now: Time)
    requires at <= now
    ensures RowAt(Collected(t, at), key) == RowAt(t, key)
            || (RowAt(Collected(t, at), key).None? && RowAt(t, key).Some? && Expired(RowAt(t, key).value, now))
  {
    if key in t.urls && t.urls[key].expires < WholeSeconds(at) {
      SecondsBehind(t.urls[key].expires, at);
    }
  }

  lemma {:induction false} RowRefines(log: seq<Op>, key: Key, now: Time)
    requires MaintainedBy(log, now)
    ensures RowOfSave(RowAt(Run(log), key), LogSave(log, key), now)
  {
    if log != [] {
      var rest, op := log[..|log| - 1], log[|log| - 1];
      assert log == rest + [op];
      RowRefines(rest, key, now);
      match op {
        case SaveOp(p, at, fault) => SavedRowAt(Run(rest), p, at, fault, key);
        case MaintainOp(at) => CollectedRowAt(Run(rest), at, key, now);
        case _ =>
      }
    }
  }

  /** The tables refine the log: after any history, interrupted saves and clears and maintenance included, a fetch returns
      what scanning the log gives. */
  lemma TablesRefineLog(log: seq<Op>, url: Url, now: Time)
    requires MaintainedBy(log, now)
    ensures Fetched(Run(log), url, now, NoFault) == LogFetch(log, url, now)
  {
    var key := LogTarget(log, url.Key());
    TargetRefines(log, url.Key());
    RowRefines(log, key, now);
    if LogSave(log, key).Some? {
      var (p, at) := LogSave(log, key).value;
      StoredRowReadsBack(p, at);
    }
  }

  lemma {:induction false} LogSaveIsInLog(log: seq<Op>, key: Key) returns (i: nat)
    requires LogSave(log, key).Some?
    ensures i < |log| && log[i].SaveOp? && log[i].fault != FirstFails
    ensures log[i].page.canonicalURL.value.Key() == key && LogSave(log, key) == Some((log[i].page, log[i].at))
  {
    var op := log[|log| - 1];
    if op.SaveOp? && op.fault != FirstFails && op.page.canonicalURL.value.Key() == key {
      i := |log| - 1;
    } else {
      i := LogSaveIsInLog(log[..|log| - 1], key);
    }
  }

  /** Whatever a fetch returns was saved, by a save in the log that wrote its row under the key the lookup leads to, comes
      back exactly as the round trip has it, and has not outlived its fetch time plus its TTL. */
  lemma NeverStale(log: seq<Op>, url: Url, now: Time) returns (i: nat)
    requires MaintainedBy(log, now) && Fetched(Run(log), url, now, NoFault).Success?
    ensures i < |log| && log[i].SaveOp? && log[i].fault != FirstFails
    ensures log[i].page.canonicalURL.value.Key() == LogTarget(log, url.Key())
    ensures
      var p, at := log[i].page, log[i].at;
      && Fetched(Run(log), url, now, NoFault) == Success(Restored(p, at)) && SamePage(p, Restored(p, at))
      && exists from, to :: KeptFromTo(p, at, from, to) && now <= to
  {
    TablesRefineLog(log, url, now);
    i := LogSaveIsInLog(log, LogTarget(log, url.Key()));
    RestoredIsSame(log[i].page, log[i].at);
    KeptUntilDeadline(log[i].page, log[i].at, now);
  }

  lemma RestoredIsSame(p: Page, at: Time)
    ensures SamePage(p, Restored(p, at))
  {
  }

  lemma KeptUntilDeadline(p: Page, at: Time, now: Time)
    requires now <= Deadline(p, at)
    ensures exists from, to :: KeptFromTo(p, at, from, to) && now <= to
  {
    assert KeptFromTo(p, at, Truncated(FetchedAt(p, at)), FetchedAt(p, at) + Lifetime(p));
  }

  // ---- Canonical URLs ----

  ghost function UrlsUsed(log: seq<Op>): set<Url> {
    if log == [] then {}
    else UrlsUsed(log[..|log| - 1]) + match log[|log| - 1]
      case SaveOp(p, _, _) => {p.requestedURL.value, p.canonicalURL.value}
      case DeleteOp(url) => {url}
      case _ => {}
  }

  ghost predicate KeyInjectiveOn(urls: set<Url>) {
    forall u, v | u in urls && v in urls && u.Key() == v.Key() :: u == v
  }

  /** The canonical URL last reported for a requested URL; the URL itself if none has been. */
  function LastReported(log: seq<Op>, url: Url): Url {
    if log == [] then url
    else
      var rest := log[..|log| - 1];
      match log[|log| - 1]
      case SaveOp(p, _, NoFault) =>
        if p.requestedURL.value == url then p.canonicalURL.value else LastReported(rest, url)
      case ClearOp(NoFault) => url
      case _ => LastReported(rest, url)
  }

  lemma {:induction false} TargetIsLastReported(log: seq<Op>, url: Url, used: set<Url>)
    requires UrlsUsed(log) + {url} <= used && KeyInjectiveOn(used)
    ensures LogTarget(log, url.Key()) == LastReported(log, url).Key() && LastReported(log, url) in used
  {
    if log != [] {
      TargetIsLastReported(log[..|log| - 1], url, used);
    }
  }

  lemma {:induction false} SaveHasItsUrl(log: seq<Op>, url: Url, used: set<Url>)
    requires UrlsUsed(log) + {url} <= used && KeyInjectiveOn(used)
    requires LogSave(log, url.Key()).Some?
    ensures LogSave(log, url.Key()).value.0.canonicalURL == Some(url)
  {
    var rest, op := log[..|log| - 1], log[|log| - 1];
    if !(op.SaveOp? && op.fault != FirstFails && op.page.canonicalURL.value.Key() == url.Key()) {
      SaveHasItsUrl(rest, url, used);
    }
  }

  /** When keys are injective on the URLs in play, the page fetched for a URL is the page of the canonical URL last
      reported for it. */
  lemma FetchedPageIsCanonical(log: seq<Op>, url: Url, now: Time)
    requires MaintainedBy(log, now) && KeyInjectiveOn(UrlsUsed(log) + {url})
    requires Fetched(Run(log), url, now, NoFault).Success?
    ensures Fetched(Run(log), url, now, NoFault).value.canonicalURL == Some(LastReported(log, url))
  {
    TablesRefineLog(log, url, now);
    var used := UrlsUsed(log) + {url};
    TargetIsLastReported(log, url, used);
    SaveHasItsUrl(log, LastReported(log, url), used);
  }
}
