/** The fetcher that keeps its pages in storage: it cleans the URL, asks the cache, fetches on a miss, and leaves the
    saving of a fetched page to the background. */
module Scraper {
  import opened Wrappers
  import opened Bits
  import opened Urls
  import opened WebPages
  import opened UrlStore
  import opened Trafilatura
  import Batches
  import Handles
  import opened Queries

  /** The errors of a fetch, and the panic of one whose fetcher gives it no page. */
  datatype FetchError = StorageFailed(error: StoreError) | FetchFailed(text: string) | FetcherClosed | NilPage

  /** Whatever retrieves pages: given what the outside world answers it returns a page, if it does, and an error. */
  type URLFetcher = (Url, Time, Answer) -> (Option<Page>, Option<string>)

  /** The trafilatura fetcher is one, and always returns a page. */
  function WithTrafilatura(client: int): URLFetcher {
    (url: Url, now: Time, answer: Answer) =>
      (Some(FetchedPage(url, now, answer, client).0), FetchedPage(url, now, answer, client).1)
  }

  /** The saves in the background, by the pages they are to store. A fetcher and its clones share one. */
  class WaitGroup {
    var pending: seq<WebPage>

    constructor ()
      ensures pending == []
    {
      pending := [];
    }
  }

  class StorageBackedFetcher {
    const Fetcher: URLFetcher
    const Storage: URLDataStore
    const saving: WaitGroup
    var closed: bool

    /** Registers the wait for the pending saves of its group with the database, and does not look whether it was
        accepted. */
    constructor (fetcher: URLFetcher, storage: URLDataStore, group: nat)
      requires Handles.AtRest(storage.dbh.h)
      modifies storage.dbh
      ensures Fetcher == fetcher && Storage == storage && fresh(saving) && saving.pending == [] && !closed
      ensures Handles.AtRest(storage.dbh.h)
      ensures storage.dbh.h == Handles.Registered(old(storage.dbh.h), Handles.WaitFor(group))
    {
      Fetcher, Storage, closed := fetcher, storage, false;
      saving := new WaitGroup();
      new;
      var _ := storage.dbh.AddCloseListener(Handles.WaitFor(group));
    }

    constructor Sharing(fetcher: URLFetcher, storage: URLDataStore, saving: WaitGroup)
      ensures Fetcher == fetcher && Storage == storage && this.saving == saving && !closed
    {
      Fetcher, Storage, closed, this.saving := fetcher, storage, false, saving;
    }

    method WithAlternateURLFetcher(uf: URLFetcher) returns (clone: StorageBackedFetcher?, err: Option<FetchError>)
      ensures closed ==> clone == null && err == Some(FetcherClosed)
      ensures !closed ==> clone != null && fresh(clone) && err.None?
      ensures !closed ==> clone.Fetcher == uf && clone.Storage == Storage && clone.saving == saving && !clone.closed
    {
      if closed {
        return null, Some(FetcherClosed);
      }
      clone := new StorageBackedFetcher.Sharing(uf, Storage, saving);
      return clone, None;
    }

    /** What a fetch of a cleaned URL, given as `original`, does with the answer of storage and of the fetcher. */
    ghost predicate Fulfils(stored: Result<Page, StoreError>, fetched: (Option<Page>, Option<string>), original: Bytes,
                            before: seq<WebPage>, res: WebPage?, err: Option<FetchError>)
      reads saving, res
    {
      match stored
      case Success(p) =>
        err.None? && res != null && res.page == p.(originalURL := original) && saving.pending == before
      case Failure(e) =>
        if e != ResourceNotFound then res == null && err == Some(StorageFailed(e)) && saving.pending == before
        else
          && (fetched.0.None? ==> res == null && err == Some(NilPage) && saving.pending == before)
          && (fetched.0.Some? ==> FulfilsFetch(fetched.0.value, fetched.1, original, before, res, err))
    }

    ghost predicate FulfilsFetch(page: Page, failed: Option<string>, original: Bytes, before: seq<WebPage>,
                                 res: WebPage?, err: Option<FetchError>)
      reads saving, res
    {
      && res != null && res.page == page.(originalURL := original)
      && (failed.Some? ==> err == Some(FetchFailed(failed.value)) && saving.pending == before)
      && (failed.None? ==> err.None? && saving.pending == before + [res])
    }

    /** The URL is cleaned in place; the page returned names it as it was given. Only a page fetched without an error is
        handed to a background save. A missing page is dereferenced when the fetch returns. */
    method Fetch(url: URL, now: Time, fault: Fault, answer: Answer) returns (res: WebPage?, err: Option<FetchError>)
      modifies url, saving
      ensures url.Value() == Clean(old(url.Value()))
      ensures res != null ==> fresh(res)
      ensures Fulfils(Fetched(Storage.Contents(), url.Value(), now, fault),
                      Fetcher(url.Value(), now, answer),
                      old(url.Value()).Text(), old(saving.pending), res, err)
    {
      var originalURL := url.Value().Text();
      var cleaned := CleanURL(url);
      res, err := FetchCleaned(cleaned.Value(), originalURL, now, fault, answer);
    }

    method FetchCleaned(url: Url, originalURL: Bytes, now: Time, fault: Fault, answer: Answer)
      returns (res: WebPage?, err: Option<FetchError>)
      modifies saving
      ensures res != null ==> fresh(res)
      ensures Fulfils(Fetched(Storage.Contents(), url, now, fault), Fetcher(url, now, answer),
                      originalURL, old(saving.pending), res, err)
    {
      var failure;
      res, failure := Storage.Fetch(url, now, fault);
      if failure.Some? && failure != Some(ResourceNotFound) {
        return null, Some(StorageFailed(failure.value));
      }
      if res == null {
        var (page, failed) := Fetcher(url, now, answer);
        if page.None? {
          return null, Some(NilPage);
        }
        res := new WebPage(page.value);
        if failed.Some? {
          res.page := res.page.(originalURL := originalURL);
          return res, Some(FetchFailed(failed.value));
        }
        saving.pending := saving.pending + [res];
      }
      res.page := res.page.(originalURL := originalURL);
      return res, None;
    }

    /** A background save runs and leaves the wait group, whether or not it could store its page, and even when it panics,
        which ends the process. */
    method FinishSave(k: nat, now: Time, fault: Fault) returns (panicked: bool)
      requires k < |saving.pending|
      modifies Storage, saving, saving.pending[k]
      ensures panicked <==> SavePanics(old(saving.pending[k].page))
      ensures Storage.Contents() ==
              if Savable(old(saving.pending[k].page))
              then Saved(old(Storage.Contents()), old(saving.pending[k].page), now, fault)
              else old(Storage.Contents())
      ensures saving.pending == old(saving.pending[..k] + saving.pending[k + 1..])
    {
      var res := saving.pending[k];
      var r := Storage.Save(res, now, fault);
      saving.pending := saving.pending[..k] + saving.pending[k + 1..];
      panicked := r == Failure(NilURL);
    }

    /** Returns at once when closed; otherwise it returns when no save is pending, and closes the fetcher. */
    method Wait()
      requires closed || saving.pending == []
      modifies this
      ensures closed
    {
      if closed {
        return;
      }
      closed := true;
    }
  }

  // ---- Only successes are stored ----

  /** A row whose page carries no error and a status of 200 to 399. */
  predicate GoodRow(row: Row) {
    row.metadata.error.None? && row.metadata.statusCode.Some? && 200 <= row.metadata.statusCode.value < 400
  }

  ghost predicate AllGood(t: Tables) {
    forall k | k in t.urls :: GoodRow(t.urls[k])
  }

  lemma GoodPagesMakeGoodRows(p: SavablePage, at: Time)
    requires Good(p)
    ensures GoodRow(StoredRow(p, at))
  {
    MetadataMarshalsExactly(WithDefaults(p, at));
    GoodMetadata(WithDefaults(p, at));
  }

  lemma GoodMetadata(p: Page)
    requires Good(p) && Metadata(p).Success?
    ensures Metadata(p).value.error.None? && Metadata(p).value.statusCode == Some(p.statusCode)
  {
  }

  lemma GoodRowsMakeGoodPages(row: Row)
    requires GoodRow(row) && PageOf(row).Success?
    ensures Good(PageOf(row).value)
  {
  }

  /** The tables and the saves in the background, as requests, maintenance and saves come and go in any order, until a
      save panics. */
  datatype Server = Server(tables: Tables, pending: seq<Page>, crashed: bool)

  const IDLE := Server(EMPTY, [], false)

  datatype Event =
    | FetchCall(url: Url, now: Time, fault: Fault, answer: Answer)   // of a cleaned URL
    | BatchFetch(url: Url, now: Time, answer: Answer)                // of a cleaned URL that storage did not have
    | SaveEnds(k: nat, at: Time, fault: Fault)
    | DeleteCall(url: Url)
    | ClearCall(fault: Fault)
    | MaintainCall(at: Time)

  function AfterFetch(s: Server, url: Url, now: Time, answer: Answer, client: int): Server {
    var (p, err) := FetchedPage(url, now, answer, client);
    if err.None? then s.(pending := s.pending + [p]) else s
  }

  function AfterSave(s: Server, k: nat, at: Time, fault: Fault): Server
    requires k < |s.pending|
  {
    var p, rest := s.pending[k], s.pending[..k] + s.pending[k + 1..];
    if SavePanics(p) then s.(crashed := true)
    else if Savable(p) then s.(tables := Saved(s.tables, p, at, fault), pending := rest)
    else s.(pending := rest)
  }

  function Next(s: Server, e: Event, client: int): Server {
    if s.crashed then s
    else match e
      case FetchCall(url, now, fault, answer) =>
        if Fetched(s.tables, url, now, fault) == Failure(ResourceNotFound) then AfterFetch(s, url, now, answer, client)
        else s
      case BatchFetch(url, now, answer) => AfterFetch(s, url, now, answer, client)
      case SaveEnds(k, at, fault) => if k < |s.pending| then AfterSave(s, k, at, fault) else s
      case DeleteCall(url) => s.(tables := Deleted(s.tables, url))
      case ClearCall(fault) => s.(tables := Emptied(s.tables, fault))
      case MaintainCall(at) => s.(tables := Collected(s.tables, at))
  }

  function Served(events: seq<Event>, client: int): Server {
    if events == [] then IDLE else Next(Served(events[..|events| - 1], client), events[|events| - 1], client)
  }

  ghost predicate OnlyGood(s: Server) {
    AllGood(s.tables) && forall p | p in s.pending :: Good(p) && p.requestedURL.Some?
  }

  lemma FetchKeepsGood(s: Server, url: Url, now: Time, answer: Answer, client: int)
    requires OnlyGood(s)
    ensures OnlyGood(AfterFetch(s, url, now, answer, client))
  {
    FetchSucceedsExactly(url, now, answer, client);
  }

  lemma SaveKeepsGood(s: Server, k: nat, at: Time, fault: Fault)
    requires OnlyGood(s) && k < |s.pending|
    ensures OnlyGood(AfterSave(s, k, at, fault))
  {
    if Savable(s.pending[k]) {
      GoodPagesMakeGoodRows(s.pending[k], at);
    }
  }

  /** Whatever is asked of the server, and however its saves are interleaved or interrupted, every row it stores is the
      page of a success, and so is every page that a fetch finds in storage. */
  lemma {:induction false} OnlySuccessesStored(events: seq<Event>, client: int)
    ensures OnlyGood(Served(events, client))
    ensures forall url, now, fault ::
              Fetched(Served(events, client).tables, url, now, fault).Success? ==>
              Good(Fetched(Served(events, client).tables, url, now, fault).value)
  {
    if events != [] {
      var before, e := Served(events[..|events| - 1], client), events[|events| - 1];
      OnlySuccessesStored(events[..|events| - 1], client);
      match e {
        case FetchCall(url, now, _, answer) => FetchKeepsGood(before, url, now, answer, client);
        case BatchFetch(url, now, answer) => FetchKeepsGood(before, url, now, answer, client);
        case SaveEnds(k, at, fault) =>
          if k < |before.pending| {
            SaveKeepsGood(before, k, at, fault);
          }
        case _ =>
      }
    }
    StoredPagesAreGood(Served(events, client).tables);
  }

  lemma StoredPagesAreGood(t: Tables)
    requires AllGood(t)
    ensures forall url, now, fault :: Fetched(t, url, now, fault).Success? ==> Good(Fetched(t, url, now, fault).value)
  {
    forall url: Url, now: Time, fault | Fetched(t, url, now, fault).Success?
      ensures Good(Fetched(t, url, now, fault).value)
    {
      GoodRowsMakeGoodPages(t.urls[Resolve(t, url.Key())]);
    }
  }

  // ---- What a server stores and serves ----

  /** What an event does to the tables. */
  function OpsOf(s: Server, e: Event): seq<Op> {
    if s.crashed then []
    else match e
      case SaveEnds(k, at, fault) =>
        if k < |s.pending| && Savable(s.pending[k]) then [SaveOp(s.pending[k], at, fault)] else []
      case DeleteCall(url) => [DeleteOp(url)]
      case ClearCall(fault) => [ClearOp(fault)]
      case MaintainCall(at) => [MaintainOp(at)]
      case _ => []
  }

  /** The log of a server's store. */
  function StoreLog(events: seq<Event>, client: int): seq<Op> {
    if events == [] then []
    else
      var init, e := events[..|events| - 1], events[|events| - 1];
      StoreLog(init, client) + OpsOf(Served(init, client), e)
  }

  lemma RunMore(log: seq<Op>, op: Op)
    ensures Run(log + [op]) == Apply(Run(log), op)
  {
    assert (log + [op])[..|log|] == log;
  }

  /** What an event does to the tables is what its operations do. */
  lemma NextApplies(s: Server, e: Event, client: int)
    ensures |OpsOf(s, e)| <= 1
    ensures Next(s, e, client).tables == if OpsOf(s, e) == [] then s.tables else Apply(s.tables, OpsOf(s, e)[0])
  {
  }

  lemma NextRunsOn(s: Server, e: Event, client: int, log: seq<Op>)
    requires s.tables == Run(log)
    ensures Next(s, e, client).tables == Run(log + OpsOf(s, e))
  {
    var ops := OpsOf(s, e);
    NextApplies(s, e, client);
    if ops == [] {
      assert log + ops == log;
    } else {
      assert ops == [ops[0]];
      RunMore(log, ops[0]);
    }
  }

  lemma {:induction false} ServerRunsItsLog(events: seq<Event>, client: int)
    ensures Served(events, client).tables == Run(StoreLog(events, client))
  {
    if events != [] {
      var init := events[..|events| - 1];
      ServerRunsItsLog(init, client);
      NextRunsOn(Served(init, client), events[|events| - 1], client, StoreLog(init, client));
    }
  }

  /** The page is that of a fetch which succeeded. */
  ghost predicate FetchedIn(events: seq<Event>, client: int, p: Page) {
    exists i | 0 <= i < |events| :: Gave(events[i], client, p)
  }

  ghost predicate Gave(e: Event, client: int, p: Page) {
    match e
    case FetchCall(url, now, _, answer) => FetchedPage(url, now, answer, client) == (p, None)
    case BatchFetch(url, now, answer) => FetchedPage(url, now, answer, client) == (p, None)
    case _ => false
  }

  lemma FetchedInMore(events: seq<Event>, client: int, p: Page)
    requires events != [] && FetchedIn(events[..|events| - 1], client, p)
    ensures FetchedIn(events, client, p)
  {
    var i :| 0 <= i < |events| - 1 && Gave(events[..|events| - 1][i], client, p);
    assert Gave(events[i], client, p);
  }

  lemma {:induction false} PagesAreFetched(events: seq<Event>, client: int)
    ensures forall p | p in Served(events, client).pending :: FetchedIn(events, client, p)
    ensures forall op | op in StoreLog(events, client) && op.SaveOp? :: FetchedIn(events, client, op.page)
  {
    if events != [] {
      var init, e := events[..|events| - 1], events[|events| - 1];
      PagesAreFetched(init, client);
      forall p | FetchedIn(init, client, p) ensures FetchedIn(events, client, p) {
        FetchedInMore(events, client, p);
      }
      forall p | p in Served(events, client).pending ensures FetchedIn(events, client, p) {
        assert p in Served(init, client).pending || Gave(events[|events| - 1], client, p);
      }
    }
  }

  ghost predicate MaintenanceUpTo(events: seq<Event>, now: Time) {
    forall i | 0 <= i < |events| && events[i].MaintainCall? :: events[i].at <= now
  }

  lemma {:induction false} LogIsMaintained(events: seq<Event>, client: int, now: Time)
    requires MaintenanceUpTo(events, now)
    ensures MaintainedBy(StoreLog(events, client), now)
  {
    if events != [] {
      var init := events[..|events| - 1];
      assert forall i | 0 <= i < |init| :: init[i] == events[i];
      LogIsMaintained(init, client, now);
    }
  }

  /** The answer with which a fetch event got its page, and when. */
  function AnswerOf(e: Event): (Answer, Time)
    requires e.FetchCall? || e.BatchFetch?
  {
    (e.answer, e.now)
  }

  /** Whatever a server serves from storage was fetched with success, by one of the requests it has had: it holds what that
      fetch extracted, and was fetched at most thirty days ago, unless the clock showed the zero time. */
  lemma ServedPagesWereFetched(events: seq<Event>, client: int, url: Url, now: Time) returns (i: nat)
    requires MaintenanceUpTo(events, now) && Fetched(Served(events, client).tables, url, now, NoFault).Success?
    ensures i < |events| && (events[i].FetchCall? || events[i].BatchFetch?)
    ensures AnswerServed(AnswerOf(events[i]).0, Fetched(Served(events, client).tables, url, now, NoFault).value)
    ensures Truncated(AnswerOf(events[i]).1) != ZERO_TIME ==>
              now <= AnswerOf(events[i]).1 + 30 * 24 * 3600 * 1_000_000_000
  {
    var log := StoreLog(events, client);
    ServerRunsItsLog(events, client);
    LogIsMaintained(events, client, now);
    PagesAreFetched(events, client);
    var k := NeverStale(log, url, now);
    var p := log[k].page;
    assert log[k] in log;
    i :| 0 <= i < |events| && Gave(events[i], client, p);
    FetchSucceedsExactly(events[i].url, AnswerOf(events[i]).1, AnswerOf(events[i]).0, client);
    SameAsExtracted(AnswerOf(events[i]).0.extracted.value, p, Restored(p, log[k].at));
    ServedWithinThirtyDays(events[i].url, AnswerOf(events[i]).1, p, log[k].at, now);
  }

  lemma ServedWithinThirtyDays(url: Url, fetched: Time, p: Page, savedAt: Time, now: Time)
    requires Requested(url, fetched, p) && exists from, to :: KeptFromTo(p, savedAt, from, to) && now <= to
    ensures Truncated(fetched) != ZERO_TIME ==> now <= fetched + DEFAULT_TTL
  {
  }

  /** The page an event fetches with success: for a batch, or for a request that storage cannot answer. */
  function SuccessIn(s: Server, e: Event, client: int): seq<Page> {
    if s.crashed then []
    else match e
      case FetchCall(url, now, fault, answer) =>
        if Fetched(s.tables, url, now, fault) == Failure(ResourceNotFound) then SuccessOf(url, now, answer, client) else []
      case BatchFetch(url, now, answer) => SuccessOf(url, now, answer, client)
      case _ => []
  }

  function SuccessOf(url: Url, now: Time, answer: Answer, client: int): seq<Page> {
    var (p, err) := FetchedPage(url, now, answer, client);
    if err.None? then [p] else []
  }

  /** The page whose save an event ends, unless it panics. */
  function EndedIn(s: Server, e: Event): seq<Page> {
    if !s.crashed && e.SaveEnds? && e.k < |s.pending| && !SavePanics(s.pending[e.k]) then [s.pending[e.k]] else []
  }

  function Successes(events: seq<Event>, client: int): seq<Page> {
    if events == [] then []
    else
      var init := events[..|events| - 1];
      Successes(init, client) + SuccessIn(Served(init, client), events[|events| - 1], client)
  }

  function Ended(events: seq<Event>, client: int): seq<Page> {
    if events == [] then []
    else
      var init := events[..|events| - 1];
      Ended(init, client) + EndedIn(Served(init, client), events[|events| - 1])
  }

  lemma PendingStep(s: Server, e: Event, client: int)
    ensures multiset(Next(s, e, client).pending) + multiset(EndedIn(s, e)) ==
            multiset(s.pending) + multiset(SuccessIn(s, e, client))
  {
    if EndedIn(s, e) != [] {
      Batches.OneTaken(s.pending, e.k);
    } else {
      assert Next(s, e, client).pending == s.pending + SuccessIn(s, e, client);
    }
  }

  lemma Balance<T>(a: seq<T>, x: seq<T>, b: multiset<T>, c: seq<T>, y: seq<T>, d: multiset<T>)
    requires multiset(a) == b + multiset(c) && d + multiset(y) == b + multiset(x)
    ensures multiset(a + x) == d + multiset(c + y)
  {
    assert multiset(a + x) == (b + multiset(x)) + multiset(c);
    assert d + multiset(c + y) == (d + multiset(y)) + multiset(c);
  }

  /** No success is lost and none is saved twice: each is waiting for its save or its save has ended. */
  lemma {:induction false} EverySuccessIsSavedOnce(events: seq<Event>, client: int)
    ensures multiset(Successes(events, client)) ==
            multiset(Served(events, client).pending) + multiset(Ended(events, client))
  {
    if events != [] {
      var init, e := events[..|events| - 1], events[|events| - 1];
      var s := Served(init, client);
      EverySuccessIsSavedOnce(init, client);
      PendingStep(s, e, client);
      Balance(Successes(init, client), SuccessIn(s, e, client), multiset(s.pending), Ended(init, client), EndedIn(s, e),
              multiset(Next(s, e, client).pending));
    }
  }

  // ---- When a save brings the server down ----

  ghost predicate OnlySaves(events: seq<Event>) {
    forall i | 0 <= i < |events| :: events[i].SaveEnds?
  }

  function Continued(s: Server, events: seq<Event>, client: int): Server {
    if events == [] then s else Next(Continued(s, events[..|events| - 1], client), events[|events| - 1], client)
  }

  lemma {:induction false} SavesSpareServer(s: Server, events: seq<Event>, client: int)
    requires !s.crashed && OnlySaves(events) && forall p | p in s.pending :: !SavePanics(p)
    ensures !Continued(s, events, client).crashed
    ensures forall p | p in Continued(s, events, client).pending :: p in s.pending
  {
    if events != [] {
      SavesSpareServer(s, events[..|events| - 1], client);
    }
  }

  ghost predicate Survives(s: Server, events: seq<Event>, client: int) {
    !Continued(s, events, client).crashed
  }

  lemma OneSaveCrashes(s: Server, k: nat, client: int)
    requires !s.crashed && k < |s.pending| && SavePanics(s.pending[k])
    ensures !Survives(s, [SaveEnds(k, 0, NoFault)], client)
  {
    var more := [SaveEnds(k, 0, NoFault)];
    assert more[..0] == [] && Continued(s, [], client) == s;
  }

  /** Exactly when the server can still be brought down by the saves in the background, in whatever order they end and
      wherever they break off: when some page waiting to be stored has no canonical URL. */
  lemma ServerSurvivesExactly(events: seq<Event>, client: int)
    requires !Served(events, client).crashed
    ensures
      var s := Served(events, client);
      (forall more | OnlySaves(more) :: Survives(s, more, client)) <==> forall p | p in s.pending :: p.canonicalURL.Some?
  {
    OnlySuccessesStored(events, client);
    PendingSurvives(Served(events, client), client);
  }

  lemma PendingSurvives(s: Server, client: int)
    requires !s.crashed && forall p | p in s.pending :: p.requestedURL.Some?
    ensures (forall more | OnlySaves(more) :: Survives(s, more, client)) <==>
            forall p | p in s.pending :: p.canonicalURL.Some?
  {
    if p :| p in s.pending && p.canonicalURL.None? {
      var k :| 0 <= k < |s.pending| && s.pending[k] == p;
      OneSaveCrashes(s, k, client);
      assert OnlySaves([SaveEnds(k, 0, NoFault)]);
    }
    if forall p | p in s.pending :: p.canonicalURL.Some? {
      forall more | OnlySaves(more) ensures Survives(s, more, client) {
        PendingSpared(s, more, client);
      }
    }
  }

  lemma PendingSpared(s: Server, more: seq<Event>, client: int)
    requires !s.crashed && OnlySaves(more) && forall p | p in s.pending :: p.requestedURL.Some? && p.canonicalURL.Some?
    ensures Survives(s, more, client)
  {
    SavesSpareServer(s, more, client);
  }

  // ---- Batches over this fetcher ----

  /** A label with which the trafilatura fetcher answers a fetch. */
  ghost predicate Gives(url: Url, now: Time, answer: Answer, client: int, l: Batches.Label) {
    l.FetchReturns? && l.page == Some(FetchedPage(url, now, answer, client).0)
    && l.error == FetchedPage(url, now, answer, client).1
  }

  /** Every answer of the fetcher in a batch run is one that the trafilatura fetcher can give. */
  ghost predicate FromTrafilatura(run: seq<Batches.Label>, client: int) {
    forall i | 0 <= i < |run| && run[i].FetchReturns? :: exists url, now, answer :: Gives(url, now, answer, client, run[i])
  }

  /** A success whose metadata has no canonical URL that parses. */
  predicate WithoutCanonical(answer: Answer) {
    answer.Got? && answer.extracted.Success? && answer.extracted.value.url.None?
  }

  /** The saves of a batch over the trafilatura fetcher are saves of successes. */
  lemma BatchStoresOnlySuccesses(c: Batches.Config, run: seq<Batches.Label>, s: Batches.State, client: int)
    requires Batches.Reaches(c, run, s) && FromTrafilatura(run, client)
    ensures forall p | p in s.saving + s.saved :: Good(p)
  {
    forall i | 0 <= i < |run| && run[i].FetchReturns? && run[i].page.Some? && run[i].error.None?
      ensures Good(run[i].page.value)
    {
      var url, now, answer :| Gives(url, now, answer, client, run[i]);
      FetchSucceedsExactly(url, now, answer, client);
    }
    Batches.SavedPagesAreSuccesses(c, run, s, Good);
  }

  lemma GoodAnswerExactly(url: Url, now: Time, answer: Answer, client: int, l: Batches.Label)
    requires Gives(url, now, answer, client, l)
    ensures Batches.GoodAnswer(l) <==> !(l.error.None? && WithoutCanonical(answer))
  {
    FetchSucceedsExactly(url, now, answer, client);
  }

  /** Exactly when a batch over the trafilatura fetcher is sure to survive: no continuation with good answers panics if and
      only if no answer so far was a success without a canonical URL that parses. */
  lemma BatchSurvivesExactly(c: Batches.Config, run: seq<Batches.Label>, s: Batches.State, client: int)
    requires Batches.Reaches(c, run, s) && FromTrafilatura(run, client)
    ensures (forall more, s' | Batches.GoodAnswers(more) && Batches.Reaches(c, run + more, s') :: !s'.panicked)
            <==> forall i, url, now, answer | 0 <= i < |run| && Gives(url, now, answer, client, run[i]) ::
                   run[i].error.None? ==> !WithoutCanonical(answer)
  {
    Batches.PanicFreeExactly(c, run, s);
    forall i, url, now, answer | 0 <= i < |run| && Gives(url, now, answer, client, run[i])
      ensures Batches.GoodAnswer(run[i]) <==> !(run[i].error.None? && WithoutCanonical(answer))
    {
      GoodAnswerExactly(url, now, answer, client, run[i]);
    }
    if !Batches.GoodAnswers(run) {
      var i :| 0 <= i < |run| && !Batches.GoodAnswer(run[i]);
      var url, now, answer :| Gives(url, now, answer, client, run[i]);
      assert run[i].error.None? && WithoutCanonical(answer);
    }
  }

  const NO_CANONICAL :=
    Got(200, "", Some("text/html"),
        Success(ExtractResult("text", None, "", "", "", "", "", ZERO_TIME, None, None, "", "", "", "")))

  const ONE_URL := Batches.Config([[]], text => Success(ANY_URL), url => url)

  lemma NextLabel(run: seq<Batches.Label>, s: Batches.State, l: Batches.Label)
    returns (run': seq<Batches.Label>, s': Batches.State)
    requires Batches.Reaches(ONE_URL, run, s) && Batches.Step(ONE_URL, s, l).Some?
    ensures run' == run + [l] && Batches.Step(ONE_URL, s, l) == Some(s') && Batches.Reaches(ONE_URL, run', s')
  {
    run', s' := run + [l], Batches.Step(ONE_URL, s, l).value;
    Batches.OneMoreLabel(ONE_URL, run, s, l, s');
  }

  lemma SoleUrlFetched() returns (run: seq<Batches.Label>, s: Batches.State)
    ensures Batches.Reaches(ONE_URL, run, s) && run == [Batches.Load(Batches.NotFound), Batches.HandOff]
    ensures s.fetcher.Fetching? && s.buffer == [] && !s.resultsClosed && s.saving == [] && !s.panicked
  {
    run, s := NextLabel([], Batches.INITIAL, Batches.Load(Batches.NotFound));
    run, s := NextLabel(run, s, Batches.HandOff);
  }

  lemma AnswerSaved(run: seq<Batches.Label>, s: Batches.State, answer: Batches.Label)
    returns (run': seq<Batches.Label>, s': Batches.State)
    requires Batches.Reaches(ONE_URL, run, s)
    requires s.fetcher.Fetching? && s.buffer == [] && !s.resultsClosed && s.saving == [] && !s.panicked
    requires answer.FetchReturns? && answer.page.Some? && answer.error.None?
    ensures Batches.Reaches(ONE_URL, run', s') && run' == run + [answer] + [Batches.SendFetched] + [Batches.Launch]
    ensures s'.saving == [answer.page.value] && !s'.panicked
  {
    run', s' := NextLabel(run, s, answer);
    run', s' := NextLabel(run', s', Batches.SendFetched);
    run', s' := NextLabel(run', s', Batches.Launch);
  }

  lemma SoleAnswerPanics(answer: Batches.Label) returns (run: seq<Batches.Label>, s: Batches.State)
    requires answer.FetchReturns? && answer.page.Some? && answer.error.None? && SavePanics(answer.page.value)
    ensures Batches.Reaches(ONE_URL, run, s) && s.panicked
    ensures |run| == 6 && run[2] == answer && forall i | 0 <= i < 6 && i != 2 :: !run[i].FetchReturns?
  {
    run, s := SoleUrlFetched();
    run, s := AnswerSaved(run, s, answer);
    run, s := NextLabel(run, s, Batches.SaveReturns(0));
  }

  /** A batch of one URL whose page extracts well and names a canonical URL that does not parse: the save panics. */
  lemma UnparsableCanonicalPanics(client: int) returns (run: seq<Batches.Label>, s: Batches.State)
    ensures Batches.Reaches(ONE_URL, run, s) && FromTrafilatura(run, client) && s.panicked
  {
    FetchSucceedsExactly(ANY_URL, 0, NO_CANONICAL, client);
    var answer := Batches.FetchReturns(Some(FetchedPage(ANY_URL, 0, NO_CANONICAL, client).0), None);
    assert Gives(ANY_URL, 0, NO_CANONICAL, client, answer);
    run, s := SoleAnswerPanics(answer);
  }

  // ---- Requests that share a cache entry ----

  /** When a page fetched at `now` and saved later was fetched, to the second: the second of the fetch, unless the clock
      then showed the zero time. */
  function FetchSecond(now: Time, savedAt: Time): Time {
    Truncated(if Truncated(now) == ZERO_TIME then savedAt else now)
  }

  lemma KeptThirtyDays(url: Url, now: Time, p: SavablePage, savedAt: Time, from: Time, to: Time)
    requires Requested(url, now, p) && KeptFromTo(p, savedAt, from, to)
    ensures from == FetchSecond(now, savedAt) && to == from + DEFAULT_TTL
    ensures to / 1_000_000_000 * 1_000_000_000 == to
  {
  }

  /** What is served of an extracted page: empty lists look absent. */
  ghost predicate ServedAs(tr: ExtractResult, q: Page) {
    && q.contentText == tr.contentText && q.canonicalURL == tr.url && q.title == tr.title && q.hostname == tr.hostname
    && q.description == tr.description && q.sitename == tr.sitename && q.license == tr.license
    && q.language == tr.language && q.image == tr.image && q.pageType == tr.pageType
    && q.authors == (if AuthorsOf(tr.author) == [] then None else Some(AuthorsOf(tr.author)))
    && q.categories == (if tr.categories == Some([]) then None else tr.categories)
    && q.tags == (if tr.tags == Some([]) then None else tr.tags)
    && q.date == (if tr.date == ZERO_TIME then None else Some(tr.date))
    && q.error.None?
  }

  ghost predicate AnswerServed(answer: Answer, q: Page) {
    answer.Got? && answer.extracted.Success? && ServedAs(answer.extracted.value, q) && q.statusCode == answer.statusCode
  }

  lemma SameAsExtracted(tr: ExtractResult, p: Page, q: Page)
    requires Good(p) && Extracted(tr, p) && SamePage(p, q)
    ensures ServedAs(tr, q) && q.statusCode == p.statusCode && q.fetchMethod == p.fetchMethod
    ensures q.requestedURL == p.requestedURL
  {
  }

  lemma ServedAfterSave(t: Tables, url: Url, original: Bytes, p: Page, now: Time, tr: ExtractResult, savedAt: Time,
                        later: Time)
    requires Savable(p) && Requested(url, now, p) && Good(p) && Extracted(tr, p)
    ensures
      var served := Fetched(Saved(t, p.(originalURL := original), savedAt, NoFault), url, later, NoFault);
      && (served.Failure? ==> served == Failure(ResourceNotFound))
      && (served.Success? <==> later <= FetchSecond(now, savedAt) + DEFAULT_TTL)
      && (served.Success? ==>
            && ServedAs(tr, served.value) && served.value.statusCode == p.statusCode
            && served.value.requestedURL == Some(url) && served.value.fetchMethod == p.fetchMethod
            && served.value.fetchTime == Some(FetchSecond(now, savedAt)))
  {
    var q := p.(originalURL := original);
    var from, to := SaveFetchRoundTrip(t, q, savedAt, later);
    assert KeptFromTo(p, savedAt, from, to);
    KeptThirtyDays(url, now, p, savedAt, from, to);
    var served := Fetched(Saved(t, q, savedAt, NoFault), url, later, NoFault);
    if served.Success? {
      assert SamePage(p, served.value);
      SameAsExtracted(tr, p, served.value);
    }
  }

  /** Once the save of a page fetched for `u` is done, every URL that differs from `u` only in its fragment, in utm
      parameters or in the order of distinct parameters is answered from storage until thirty days after the fetch, to
      the second, and never after that; and the answer holds all that was extracted. */
  lemma ServedFromCache(t: Tables, u: Url, v: Url, p: Page, now: Time, answer: Answer, client: int, savedAt: Time,
                        later: Time)
    requires u.head == v.head && u.hostname == v.hostname && u.forceQuery == v.forceQuery
    requires Agree(QueryParams(u.rawQuery), QueryParams(v.rawQuery))
    requires FetchedPage(Clean(u), now, answer, client) == (p, None) && Savable(p)
    ensures
      var served := Fetched(Saved(t, p.(originalURL := u.Text()), savedAt, NoFault), Clean(v), later, NoFault);
      && (served.Failure? ==> served == Failure(ResourceNotFound))
      && (served.Success? <==> later <= FetchSecond(now, savedAt) + 30 * 24 * 3600 * 1_000_000_000)
      && (served.Success? ==>
            && AnswerServed(answer, served.value) && served.value.fetchMethod == client
            && served.value.requestedURL == Some(Clean(u))
            && served.value.fetchTime == Some(FetchSecond(now, savedAt)))
  {
    SameCacheEntry(u, v);
    FetchSucceedsExactly(Clean(u), now, answer, client);
    ServedAfterSave(t, Clean(u), u.Text(), p, now, answer.extracted.value, savedAt, later);
  }
}
