# A verified model of scrape's cache, fetcher and database handle

`scrape` fetches web pages, keeps them in a two-table SQL cache, answers batches of URLs concurrently and shuts down
through a database handle whose close listeners wait for saves still under way. This project models that system in Dafny
and proves its properties over all inputs, all runs and all interleavings.

| file | what it models |
|---|---|
| `Scraper.dfy` | the storage-backed fetcher: clean, look up, fetch, save in the background; clones and `Wait` |
| `Batch.dfy` | `Batch` as a machine of two workers, a closer, an unbuffered and a buffered channel and background saves |
| `Storage.dfy` | the tables `urls` and `id_map`, a class over them, and a log of operations as reference |
| `SaveInterleaving.dfy` | saves and fetches interleaved SQL statement by SQL statement |
| `KeyGraph.dfy`, `SaveOrders.dfy`, `SaveSerialisation.dfy`, `SaveTangles.dfy` | exactly when interleaved saves serialise |
| `Handle.dfy` | the database handle used by one goroutine, and its atomic effects |
| `Shutdown.dfy` | lookups, fetches and the saves they turn into, listeners and concurrent calls of `Close` over one handle, step by step |
| `ShutdownProgress.dfy`, `ShutdownWitness.dfy` | when a shutdown completes and is clean, with or without threads starting meanwhile, and runs in which it hangs and in which it crashes |
| `CleanUrl.dfy`, `Query.dfy` | URL cleaning, with query parsing and sorted re-encoding |
| `Key.dfy`, `Bits.dfy` | the 63-bit storage key, with FNV-1a, folding and packing over bounded integers |
| `WebPage.dfy` | pages and their JSON form as a record of optional fields |
| `Trafilatura.dfy` | the outcome paths of the page fetcher and the author list |
| `DomainQuery.dfy`, `DomainSettings.dfy` | domain validation, search patterns with a general LIKE, and the paged table |
| `Migration.dfy` | setting and restoring environment variables around a migration |
| `Wrappers.dfy`, `Ordering.dfy`, `Text.dfy` | result types, orders and sorted listings, splitting |

Classes hold the state that the program updates in place (`URLDataStore`, `WebPage`, `URL`, `StorageBackedFetcher`,
`DBHandle`, `DomainSettingsStorage`, `Environment`); each method's contract gives the new state through a specification
function, and the lemmas are about those functions. Goroutines are machines: a label is one channel operation, mutex
operation, call return, SQL statement or goroutine exit, a run is a sequence of enabled labels, and the theorems quantify
over all runs. Clocks, network answers, failing statements and the library calls behind them are parameters.

## Where the code differs from what one might expect

- **Shutdown that hangs.** It is not enough that the statements a pending save needs are cached when `Close` takes the
  mutex: a save that missed its unlocked read before another goroutine cached the statement still asks for the mutex, and
  `Close` waits for that save while holding it (`ShutdownWitness.CachedStatementsAreNotEnough`). Nor is it enough that no
  save is pending: a fetch in progress does not look whether the handle closes, and adds its save while `Close` waits
  (`ShutdownWitness.FetchInProgressCanHang`). For the fetches and saves under way at that moment the exact condition is
  `ShutdownProgress.AllReady`, which covers both; when further fetches may start, it is `AllReady` and `KeysSuffice`.
- **Shutdown that crashes.** `Close` waits neither for the fetches and saves of a batch, nor for lookups, nor for fetches that
  have not come to their save. One that comes to its generator when the handle is closed prepares a statement on a nil
  database, which ends the process (`ShutdownWitness.LateBatchSaveCrashes`). No schedule of the threads there are hangs or
  crashes exactly when `AllReady` and `NoneExposed` hold at the moment `Close` has the mutex. A lookup that starts later can
  crash even then (`ShutdownProgress.NewLookupCanCrash`).
- **Shutdown by cancellation.** A cancelled context fails every statement from then on: the saves that `Close` waits for end,
  but store nothing further (`Shutdown.CancelledShutdownStores`).
- **Opening again.** A closed handle can be opened again, but stays marked closed, and no `Close` closes it any more.
- **Interleaved saves.** Saves run as two statements without a transaction. They always end as one of their serial orders
  if and only if the graph that joins the canonical and the requested key of each save has no cycle; so three always do, and
  four need not.
- **Stopping maintenance by hand.** It makes a later `Close` panic before it does anything.
- **Round trip.** Besides the original URL, empty lists, zero dates and fractions of a second, an error with an empty
  message is lost.
- **Cleaning.** The comment promises the removal of utm parameters. The code also drops query segments that do not decode
  or contain `;`, normalises escapes, sorts parameters by name, and keeps a bare trailing `?`.
- **Canonical URL.** A page fetched without an error has no canonical URL when the one in its metadata does not parse.
  Saving it dereferences nil in a background goroutine, which ends the process. A batch survives exactly when no answer is
  such a page.
- **Dates.** A page whose date lies outside the years 0 to 9999 cannot be marshalled, and is not stored.
- **Search.** A `%` typed at either end of a query is a wildcard like `*`. A part of a valid domain longer than 251
  characters is rejected, so the longest domains cannot be found under their full names.
- **Domain settings.** Saving and deleting fold case, fetching does not.
- **Migration.** When the engine and the caller name the same variable, the value left behind is the engine's, not the
  one from before. `Migrations.RestoredExactly` gives the exact condition. A pair that cannot be set leaves those before
  it set.

## Model

| member | source | states |
|---|---|---|
| `Batches.BatchFinishes` | internal/scrape.go:100-124 | A run that no goroutine can continue, whether or not the consumer reads, has finished both workers, every save and the closer and closed the result channel, or has panicked on an answer of the fetcher that it cannot survive; it took at most 10n + 10 steps. |
| `Batches.NeverStuck` | internal/scrape.go:144-188 | In every reachable state that is not final some goroutine can step without the consumer's help, whatever storage and fetcher answer. |
| `Batches.RunsAreBounded` | internal/scrape.go:144-188 | A measure drops with every step, so every run is finite. |
| `Batches.BatchSafe` | internal/scrape.go:101-157 | No send on a closed channel, double close, negative wait group or nil dereference in any run whose fetcher answers are pages and, without an error, pages that can be saved without a panic; a page about to be sent always finds room; the result channel is closed only after both workers exit. |
| `Batches.BatchDelivers` | internal/scrape.go:144-188 | In terms of the labels of a finished run: the results are an order-preserving merge of the loaded and the fetched pages; the loaded ones are, in input order, for each input that does not parse a page with nothing but it and the parse error, and for each found in storage the stored page under the input; the fetched ones are, for the inputs not found, in their order, the pages answered, each with the error of its answer, under its input and otherwise as answered. |
| `Batches.BatchAnswersEachInputOnce` | internal/scrape.go:144-188 | The original URLs of the results, with the inputs whose lookup failed otherwise than by not-found, are the inputs as a multiset. |
| `Batches.OutcomesFollowTheRun` | internal/scrape.go:170-186 | In every run each URL's outcome is exactly what its parse and storage's answer call for (error page, stored page, request handed over, or no answer for other storage errors), and the fetches are what the fetcher returned, in order. |
| `Batches.PanicFreeExactly` | internal/scrape.go:145-157 | No continuation with good answers panics if and only if every answer so far was a page, and every one without an error a page whose URLs the save can dereference. |
| `Batches.SavedPagesAreSuccesses` | internal/scrape.go:150-157 | Whatever holds of every page fetched without an error holds of every page a batch saves, in every run. |
| `Batches.BatchSavesEverySuccess` | internal/scrape.go:151-157 | A finished batch has saved every page answered without an error, as often as it was answered, and no other. |
| `Scraper.StorageBackedFetcher.constructor` | internal/scrape.go:38-51 | A new fetcher is open, has a wait group of its own with nothing pending, and has offered its wait to the database as a close listener, accepted or not. |
| `Scraper.StorageBackedFetcher.WithAlternateURLFetcher` | internal/scrape.go:56-68 | A closed fetcher refuses; otherwise the clone shares storage and wait group and is itself open. |
| `Scraper.StorageBackedFetcher.Fetch` | internal/scrape.go:70-96 | Over any URL fetcher: the URL is cleaned in place; a stored page is returned under the URL as given; other storage errors give no page; a miss returns the fetcher's page and error, and only a success adds a pending save; a nil page from the fetcher panics. |
| `Scraper.StorageBackedFetcher.FinishSave` | internal/scrape.go:87-93 | A background save leaves the wait group whether or not it stored its page, and panics exactly on a page whose URLs it cannot dereference. |
| `Scraper.StorageBackedFetcher.Wait` | internal/scrape.go:127-136 | Returns when nothing is pending, or at once if closed, and leaves the fetcher closed. |
| `Scraper.OnlySuccessesStored` | internal/scrape.go:79-94 | After any sequence of fetches, batch fetches, saves, failing statements, deletions and maintenance, every stored row and every page found in storage has no error and a status of 200 to 399. |
| `Scraper.ServedPagesWereFetched` | internal/scrape.go:70-96 | After any sequence of events, a page served from storage is that of a fetch among them that succeeded, holds all that it extracted, and was fetched at most thirty days ago unless the clock showed the zero time. |
| `Scraper.EverySuccessIsSavedOnce` | internal/scrape.go:86-93 | After any sequence of events, the pages of the fetches that succeeded are those waiting to be saved and those whose save has ended, as multisets. |
| `Scraper.ServerRunsItsLog` | internal/scrape.go:75-94 | The tables of a server are those of the store after the log of its saves, deletions, clears and maintenance. |
| `Scraper.ServerSurvivesExactly` | internal/scrape.go:86-93 | After any such sequence every further sequence of saves, in any order and with any faults, spares the server if and only if every pending page has a canonical URL. |
| `Scraper.BatchStoresOnlySuccesses` | internal/scrape.go:144-159 | In every interleaving of a batch over the page fetcher only such pages are saved. |
| `Scraper.BatchSurvivesExactly` | internal/scrape.go:144-159 | No continuation of a batch over the page fetcher panics if and only if no answer so far was a success whose metadata URL does not parse. |
| `Scraper.UnparsableCanonicalPanics` | fetch/trafilatura/fetcher.go:113 | A run of a batch of one URL that panics on such an answer. |
| `Scraper.ServedFromCache` | internal/scrape.go:72-75 | Once a fetched page is saved, every URL differing only in fragment, utm parameters or order of distinct parameters gets from storage, until exactly thirty days after the second of the fetch and from any tables, a page that holds everything extracted, field by field. |
| `Trafilatura.TrafilaturaFetcher.Fetch` | fetch/trafilatura/fetcher.go:49-106 | Always returns a fresh page, with the outcome that the answers of client and extractor determine. |
| `Trafilatura.TrafilaturaFetcher.ApplyExtractResult` | fetch/trafilatura/fetcher.go:108-135 | Fills each field from its own in the extraction; the author loop yields the trimmed non-empty names; a zero date leaves the date alone; status, error, request and fetch time stay. |
| `Trafilatura.FetchSucceedsExactly` | fetch/trafilatura/fetcher.go:54-135 | Success if and only if a response of status 200 to 399 of a supported or unknown media type whose text extracts; the page of a success holds each extracted field in its own and no error, that of a failure nothing but request, status and error, with the text of each error and the exception of a failed extraction, which leaves no error on the page. |
| `Trafilatura.AuthorsRoundTrip` | fetch/trafilatura/fetcher.go:115-121 | Authors are trimmed, non-empty and free of semicolons, and a semicolon-joined list of such names gives them back. |
| `Trafilatura.AuthorsExactly` | fetch/trafilatura/fetcher.go:115-121 | The authors are what stands between the semicolons, in order, each trimmed, without the blank ones. |
| `Trafilatura.TrimExactly` | fetch/trafilatura/fetcher.go:118 | Trimming takes off the spaces at both ends, all of them, and nothing else. |
| `UrlStore.URLDataStore.Save` | internal/storage/storage.go:62-120 | Changes nothing of its argument but an absent or zero TTL, which becomes thirty days, and an absent or zero fetch time, which becomes the current second; then writes row and mapping under their keys, with the state after a failure of either statement; panics exactly on a nil URL, and a page it cannot marshal leaves the tables alone. |
| `UrlStore.URLDataStore.ColumnValues` | internal/storage/storage.go:63-96 | The columns, the marshalling error or the panic, in the order of the code, from a copy whose skip list never shows on the original. |
| `UrlStore.ColumnsExactly` | internal/storage/storage.go:75-96 | The row of a page holds in each column its own field, in whole seconds for the times, and in its metadata exactly the other fields. |
| `UrlStore.URLDataStore.StoreIdMap` | internal/storage/storage.go:122-134 | Maps the requested key to the canonical key, or changes nothing. |
| `UrlStore.TargetRefines` | internal/storage/storage.go:209-230 | After any log a lookup leads to the canonical key of the last complete save of the requested key since the last complete clear, or to the key itself. |
| `UrlStore.URLDataStore.Fetch` | internal/storage/storage.go:143-206 | Page or error exactly as the tables determine, changing nothing. |
| `UrlStore.URLDataStore.Delete` | internal/storage/storage.go:236-260 | Removes the row under the URL's own key and leaves mappings; reports whether there was one. |
| `UrlStore.URLDataStore.Clear` | internal/storage/storage.go:263-266 | Empties both tables, or the pages only when it breaks off between its two statements. |
| `UrlStore.URLDataStore.Maintain` | database/sqlite/maintenance.sql:2 | Deletes exactly the rows that a fetch at the start of the current second would find expired, and changes no other row and no mapping. |
| `UrlStore.SaveFetchRoundTrip` | internal/storage/storage.go:62-207 | A savable page comes back from any tables until the second of its expiry and never later, with every field as it was given to the save, but for the original URL, empty lists, zero dates, empty error messages and fractions of seconds. |
| `UrlStore.RestoredTTL` | internal/storage/storage.go:198-203 | The returned TTL is within a second of the saved one, and is that rounded down when the fetch time is a whole second. |
| `UrlStore.MetadataMarshalsExactly` | internal/storage/storage.go:76-86 | The marshalling error path of a save is taken if and only if the page's date lies outside the years 0 to 9999. |
| `UrlStore.NeverStale` | internal/storage/storage.go:143-207 | A fetched page is that of a save in the log, field by field, and has not outlived that save's fetch time plus TTL. |
| `UrlStore.CollectionInvisible` | database/sqlite/maintenance.sql:2 | Maintenance at one time changes no fetch at that or a later time, sub-second clock against whole-second expiry. |
| `UrlStore.TablesRefineLog` | internal/storage/storage.go:62-266 | After any log of saves and clears (complete or broken off), deletions and maintenance a fetch returns what scanning the log backwards for saved pages gives. |
| `UrlStore.FetchedPageIsCanonical` | internal/storage/storage.go:136-155 | If keys are injective on the URLs used, the page fetched for a URL is that of the canonical URL last reported for it. |
| `SaveInterleaving.SavedIsEffect` | internal/storage/storage.go:104-118 | Run alone, the two statements do what `Save` does. |
| `SaveInterleaving.MappedFetchFindsRow` | internal/storage/storage.go:104-169 | Every mapping has its row at every step of every interleaving, failures included, so a fetch whose lookup hit finds a row. |
| `SaveSerialisation.AcyclicSavesSerialise` | internal/storage/storage.go:104-129 | Any number of interleaved saves, complete or broken off, whose keys form no cycle end in the state of a serial order. |
| `SaveTangles.SerialiseExactlyWhenAcyclic` | internal/storage/storage.go:104-129 | Any number of saves always serialise, from any tables, if and only if the graph of their keys has no cycle. |
| `SaveTangles.ThreeSavesSerialise` | internal/storage/storage.go:104-129 | Three saves or fewer always serialise. |
| `SaveTangles.AgreeingSavesSerialise` | internal/storage/storage.go:104-129 | So do any number that report no requested key under two canonical ones, or no canonical key for two requested ones. |
| `SaveTangles.FourSavesCanTangle` | internal/storage/storage.go:104-129 | Four pages of two URLs with different keys that can end in the state of no serial order. |
| `Handles.DBHandle.Open` | database/database.go:65-93 | Opens unless it is open; a second call or a failing driver changes nothing; a failing hook leaves the handle open; a handle that was closed opens again but stays marked closed. |
| `Handles.DBHandle.Statement` | database/database.go:150-171 | Cached statement, or the generated one, which is then cached; a failed generator changes nothing; without a database it panics. |
| `Handles.DBHandle.AddCloseListener` | database/database.go:177-187 | Queues a listener unless the handle is closed or eight are queued, and says which. |
| `Handles.DBHandle.Close` | database/database.go:133-233 | Runs the queued listeners in order, closes each cached statement once in some order and the database once, reports exactly what could not be closed, and leaves an empty closed handle; a second call does nothing, even if the handle was opened again; it panics, changing nothing, exactly when maintenance was stopped by hand. |
| `Shutdown.StatementCacheSafe` | database/database.go:150-171 | In every run each key has at most one successful generator call, and everything cached, returned or held by a caller for it is that statement. |
| `Shutdown.FailedCallLeavesCache` | database/database.go:155-168 | From its re-check until a call with a failing generator returns without a statement, whatever other threads do, the cache is unchanged and nothing is generated. |
| `Shutdown.HandleLifecycle` | database/database.go:177-233 | In every run with any number of closers: at most eight queued listeners; those accepted run once each, in order, before any statement or the database is closed; the fetchers waited for are closed; every channel is closed at most once; a closed handle has an empty cache and each statement ever generated was closed once. |
| `Shutdown.ClosedIsFinal` | database/database.go:192-201 | No step changes a closed handle. |
| `Shutdown.ShutdownSafe` | internal/scrape.go:86-93 | Once any statement or the database is closed, every counted save whose count came before its group's wait returned is done, clones' saves included. |
| `Shutdown.SavesWriteWhatTheyExecute` | internal/storage/storage.go:98-130 | In every run a save has written exactly what the statements it executed write: the row first, then the mapping. |
| `Shutdown.StatementsArePrepared` | internal/storage/storage.go:98-215 | In every run a save or fetch about to execute a statement has one that was generated under that statement's key. |
| `Shutdown.CancelledShutdownStores` | database/database.go:77-79 | When the context is cancelled, each early save has at the shutdown's end stored exactly what it had executed before: nothing, the row alone, or both. |
| `ShutdownProgress.MovesAreBounded` | database/database.go:150-233 | Left to themselves the threads come to rest within a bound read off the state. |
| `ShutdownProgress.ReadyShutdownCompletes` | database/database.go:197-233 | If no awaited save, and no fetch that can come to an awaited save, can still ask for the mutex when `Close` has it, every schedule of the threads there are ends with the handle closed, all listeners run, and all threads done unless one is about to crash on the missing database. |
| `ShutdownProgress.DeadlockIsFinal` | database/database.go:155-210 | A save waiting for the mutex that `Close` holds while waiting for the save waits for ever. |
| `ShutdownProgress.BlockableShutdownCanHang` | database/database.go:197-210 | Otherwise some schedule of the threads there are hangs with the handle open. |
| `ShutdownProgress.ShutdownCompletesExactlyWhenReady` | database/database.go:192-233 | All schedules of the saves, fetches, lookups and calls of `Close` under way close the handle if and only if none of those saves and fetches can come to ask for the mutex as a save that `Close` waits for. |
| `ShutdownProgress.QuietShutdownIsClean` | database/database.go:150-233 | If moreover every thread with a statement still to look up, for itself or for the save it turns into, is an awaited save, no thread comes to the missing database, and every thread ends. |
| `ShutdownProgress.ExposedShutdownCanCrash` | database/database.go:165-226 | If there is another, be it a lookup, a fetch or a save of a batch, some schedule brings it to a generator without a database. |
| `ShutdownProgress.ShutdownCleanExactlyWhenQuiet` | database/database.go:150-233 | No schedule of the threads there are, fetches and batches in progress included, hangs or crashes if and only if both conditions hold when `Close` has the mutex. |
| `ShutdownProgress.NewThreadsDoNotBlockShutdown` | database/database.go:150-233 | If moreover both statements of a save are cached whenever both of a fetch are and some group is awaited, then whatever fetches, lookups and calls of `Close` start meanwhile, some thread can move in every state reached until `Close` is through and all are done, or one is about to crash on the closed handle. |
| `ShutdownProgress.NewFetchCanHang` | internal/storage/storage.go:98-125 | If those of a fetch are cached and some group is awaited, but not both of a save are cached, a fetch that starts after `Close` took the mutex hangs the shutdown in some schedule. |
| `ShutdownProgress.ShutdownCompletesWhateverStarts` | internal/scrape.go:80-93 | With threads starting at any time, no schedule hangs if and only if both conditions hold when `Close` has the mutex. |
| `ShutdownProgress.NewLookupCanCrash` | database/database.go:165-168 | Even when nothing under way can hang the shutdown, a lookup that starts after `Close` took the mutex comes to the missing database in some schedule. |
| `ShutdownWitness.FetchInProgressCanHang` | internal/scrape.go:80-87 | A run from the start to a state without any save in which shutdown still hangs on the fetch in progress. |
| `ShutdownWitness.CachedStatementsAreNotEnough` | database/database.go:150-156 | A run from the start to a state with both save statements cached in which shutdown still hangs. |
| `ShutdownWitness.LateBatchSaveCrashes` | internal/storage/storage.go:98-100 | A run in which no awaited save is in the way and a batch save still crashes on the closed handle. |
| `Urls.CleanURL` | resource/url.go:20-32 | Nil stays nil; otherwise the query is replaced in place by the text of its parameters outside the utm list, names in the order of their bytes as numbers and the values of a name in the order of the query, and the fragment is emptied. |
| `Urls.CleanExactly` | resource/url.go:20-32 | Cleaning spells out the query anew in this way, and changes nothing of a URL but query and fragment. |
| `Urls.TextParses` | internal/storage/key.go:53 | The text of a URL that is hashed and stored gives its parts back. |
| `Urls.KeyOfText` | internal/storage/key.go:44-57 | The key of a URL has its hostname's byte sum modulo 128 above the folded FNV-1a hash of its text. |
| `Urls.CleanQueryRoundTrip` | resource/url.go:24-29 | Parsing the cleaned query gives exactly the parameters that survive. |
| `Urls.CleanIdempotent` | resource/url.go:20-32 | Cleaning a clean URL changes nothing. |
| `Urls.SameCleanQuery` | resource/url.go:24-29 | Two queries clean to the same text if and only if they give every name outside the utm list the same values in order. |
| `Urls.DroppedSegment` | resource/url.go:25-27 | A utm parameter or an undecodable segment may be added anywhere, also to a query with no other. |
| `Urls.SwappedSegments` | resource/url.go:29 | Neighbouring parameters of different names may change places. |
| `Urls.SameCacheEntry` | internal/scrape.go:72-75 | URLs that clean alike have one cleaned text and one key. |
| `Queries.UnescapeEscape` | resource/url.go:29 | Unescaping undoes escaping on every byte string (section 2.1 of RFC 3986). |
| `Queries.EscapeExactly` | resource/url.go:29 | Letters, digits and '-._~' are escaped by themselves, a space by '+', every other byte by '%' and two upper-case hexadecimal digits (section 2.1 of RFC 3986). |
| `Queries.UnescapeExactly` | resource/url.go:24 | A text unescapes to a byte string if and only if it spells it piece by piece, with hexadecimal digits of either case. |
| `Queries.DecodeExactly` | resource/url.go:24 | A segment carries a name and a value if and only if it is not empty, holds no ';', and its sides around the first '=' spell them. |
| `Queries.ParseEncode` | resource/url.go:24-29 | Parsing undoes encoding for every set of parameters. |
| `Queries.EncodeExactly` | resource/url.go:29 | The encoding is the text of the parameters with '=' and '&' between them, names in order, values of a name in theirs. |
| `Queries.SortedNames` | resource/url.go:29 | Names come in strictly ascending order of their bytes as numbers, a proper prefix first, each exactly once. |
| `Queries.SortedNamesOnly` | resource/url.go:29 | No other ascending listing of the names exists. |
| `Queries.ParsedValues` | resource/url.go:24 | Parsing gives each name its values in the order of the query, and no name an empty list. |
| `Queries.ParseAppends` | resource/url.go:24 | Of two queries joined by '&' the values of the first come first, for every name. |
| `Queries.ParseOne` | resource/url.go:24 | A query without '&' gives the name it carries its value, and nothing else. |
| `Keys.ComputeKey` | internal/storage/key.go:44-57 | The loops over hostname and URL compute the key. |
| `Keys.Pack` | internal/storage/key.go:50-56 | Shift, mask, fold and combine are arithmetic on disjoint parts. |
| `Keys.KeyLayout` | internal/storage/key.go:37-57 | Every key is below 2^63; bits 56 to 62 are the hostname's byte sum modulo 128, the rest is the hash's top byte exclusive-ored into its low 56 bits. |
| `Keys.ByteSumAdds` | internal/storage/key.go:45-48 | The byte sum adds up over any division of a text. |
| `Keys.FnvIsPublished` | internal/storage/key.go:52-54 | The hashes of the empty text and of "a" are the published test vectors of draft-eastlake-fnv. |
| `Keys.HostnameBlock` | internal/storage/key.go:44-57 | Keys of one hostname share a block of 2^56, and coincide there exactly when the folded hashes do. |
| `Keys.MultiplyInjective` | internal/storage/key.go:52-54 | Multiplication by the FNV prime is injective modulo 2^64. |
| `Keys.OneByteChangesHash` | internal/storage/key.go:52-54 | Strings that differ in exactly one byte have different FNV-1a values (section 2 of draft-eastlake-fnv). |
| `Keys.FoldCollides` | internal/storage/key.go:55 | When folded hashes coincide; different hashes fold together only if their top bytes differ. |
| `Keys.OneByteCollision` | internal/storage/key.go:44-57 | URLs of one host that differ in one byte share a key only if the top bytes of their hashes differ. |
| `WebPages.WebPage.ExpireTime` | resource/web_page.go:64-74 | Fetch time, or now, plus the TTL; an error if and only if the TTL is zero. |
| `WebPages.ClearedPageMarshalsWhole` | resource/web_page.go:76-171 | Once its skip list is cleared a page marshals whole, whatever was skipped before. |
| `WebPages.WebPage.SkipWhenMarshaling` | resource/web_page.go:80-85 | Replaces the skip list by the set of its arguments. |
| `WebPages.WebPage.MarshalJSON` | resource/web_page.go:87-132 | The document does not depend on the order in which the skip list is visited, and the page is unchanged. |
| `WebPages.DocumentExactly` | resource/web_page.go:87-132 | When a page marshals, and then which key of the document holds which field, absent exactly if skipped or empty. |
| `WebPages.WebPage.UnmarshalJSON` | resource/web_page.go:134-171 | Present keys replace fields, absent keys keep them, zero times become nil. |
| `WebPages.DecodedExactly` | resource/web_page.go:134-171 | When a document is read over a page, and then what becomes of every field. |
| `WebPages.JsonRoundTrip` | resource/web_page.go:87-171 | Unmarshalling a marshalled page gives back everything neither skipped nor inexpressible. |
| `WebPages.TimesAreMidnights` | resource/web_page.go:24-27 | The zero time and the bounds of the years JSON can write are midnights of the Gregorian calendar. |
| `DomainQueries.ValidatedIsTheExpression` | internal/settings/domain.go:216 | The validator accepts exactly the language of its regular expression, character class by character class. |
| `DomainQueries.AcceptedExactly` | internal/settings/domain.go:218-231 | Which queries are accepted, in terms of the query as typed. |
| `DomainQueries.SearchMeansWhatItSays` | internal/settings/domain.go:214-231 | General LIKE matching of the produced pattern equals the prefix, suffix or substring test the user's wildcards mean, on every lower-case domain. |
| `DomainQueries.WildcardsMean` | internal/settings/domain.go:153-231 | What a query means in terms of its text: a '*' or '%' at one end asks for a suffix or prefix, at both or neither for a part. |
| `DomainQueries.ValidateDomain` | internal/settings/domain.go:266-313 | No error if and only if the domain is valid; each error names the first thing wrong. |
| `DomainQueries.DomainsMean` | internal/settings/domain.go:262-313 | A domain is valid if and only if it has 4 to 253 characters and at least two labels between its dots, all valid and the last a top-level name. |
| `DomainQueries.LabelsMean` | internal/settings/domain.go:263-309 | Which labels and which top-level names are valid, in terms of their characters. |
| `DomainQueries.LowerCaseStaysValid` | internal/settings/domain.go:52-61 | Lower-casing keeps a domain valid. |
| `DomainQueries.LowerExactly` | internal/settings/domain.go:57 | Which characters lower-casing changes, and into which. |
| `DomainQueries.DomainsAreFindable` | internal/settings/domain.go:214-313 | A non-empty part of a valid domain's lower-case form is accepted if and only if it has at most 251 characters, and then finds the domain. |
| `DomainQueries.LongestDomainsAreNotFindable` | internal/settings/domain.go:216 | A valid domain whose full name is rejected as a query. |
| `DomainSettingsTable.NewDomainSettings` | internal/settings/domain.go:52-61 | Settings under the lower-case domain if and only if the domain is valid. |
| `DomainSettingsTable.DomainSettingsStorage.Save` | internal/settings/domain.go:233-264 | Lower-cases the domain of its argument and nothing else of it, even when the statement fails; replaces one row by the argument as it then is, if its columns fit. |
| `DomainSettingsTable.DomainSettingsStorage.Delete` | internal/settings/domain.go:82-111 | Removes the one row that equals the domain without regard to case; more than one can never match. |
| `DomainSettingsTable.DomainSettingsStorage.Fetch` | internal/settings/domain.go:113-137 | The row under exactly this domain. |
| `DomainSettingsTable.DomainSettingsStorage.FetchRange` | internal/settings/domain.go:156-212 | Rejects exactly the illegal queries; otherwise one page of the sorted listing, element by element, of 100 rows if no limit is given and never more than 1000. |
| `DomainSettingsTable.FetchMindsTheCase` | internal/settings/domain.go:113-137 | After a save, fetching by the domain as written works if and only if it was lower case. |
| `DomainSettingsTable.DeleteUndoesSave` | internal/settings/domain.go:82-111 | Deleting in any case undoes a save and touches no other row. |
| `DomainSettingsTable.ListingIsExact` | internal/settings/domain.go:167-191 | The listing holds exactly the rows the query means, in strictly ascending order of the characters of their domains as numbers. |
| `DomainSettingsTable.ListingIsOnlyOne` | internal/settings/domain.go:167-191 | Any ascending listing of the domains the query means is that listing. |
| `DomainSettingsTable.PagingIsExact` | internal/settings/domain.go:156-212 | Pages stepped by the effective limit until a short one make up the whole listing, for every limit. |
| `DomainSettingsTable.SavedDomainIsFound` | internal/settings/domain.go:156-264 | Settings saved for a valid domain turn up in a search for any part of it of up to 251 characters. |
| `Migrations.SetPairs` | database/migration.go:85-91 | Sets every pair and remembers what it read, or stops at the first pair that cannot be set and leaves those before it set. |
| `Migrations.ArgumentsAreSet` | database/migration.go:85-91 | A variable has the argument that follows its last mention as a name, and one that is not named keeps its own. |
| `Migrations.PrepareForMigration` | database/migration.go:52-93 | Each early error changes nothing, in the order of the checks; then the engine's pairs and the caller's are set. |
| `Migrations.ClearF` | database/migration.go:75-84 | Putting back in any order gives the same environment. |
| `Migrations.MigrateUp` | database/migration.go:25-40 | The environment is put back whether or not hook and migration succeed. |
| `Migrations.RoundTripOf` | database/migration.go:74-92 | What becomes of each variable after setting and restoring. |
| `Migrations.RestoredExactly` | database/migration.go:74-92 | The environment is restored if and only if no named variable was set to the empty string and each named more than once had the value of the last pair but one. |
| `Migrations.DistinctNamesRestored` | database/migration.go:74-92 | With distinct names, restored if and only if none was set to the empty string. |
| `Migrations.SharedNameLeavesEngineValue` | database/migration.go:60-62 | A name shared by engine and caller is left with the engine's value. |

## Left out

- HTTP clients, headless browsing, feed parsing and text extraction: their answers are parameters of the page fetcher.
- The SQL engine, drivers, connection limits and timeouts: a statement is one atomic operation that may fail. Sorting, LIKE
  and LOWER follow SQLite; collations of MySQL are not modelled.
- JSON bytes and URL parsing: a document is a record of optional fields, and parsing a URL is taken to undo printing it.
  Documents of rows not written by the program are not modelled beyond that record.
- Effects of the Go memory model on the unlocked map read in `Statement` and on `Save` writing a page already returned.
- Maintenance tickers: whether a job starts after `Close` is not said.
- Handlers, routes, authentication, statistics, flags, `findMigrationsDir`, error identity tests and feed resources: they
  would only add easy members. Key derivation from a plain string goes through a regular expression for the hostname; here
  the hostname is a part of the URL.
- Batches.BatchFinishes: assumes that storage and fetcher calls return; parsing and cleaning are arbitrary functions there,
  since nothing depends on them.
- Batches.SavedPagesAreSuccesses: the saves of a batch are not counted in any wait group, as in the code; what becomes of
  them at shutdown is in `ShutdownProgress`.
- SaveTangles.SerialiseExactlyWhenAcyclic: deletions, clears and maintenance are not interleaved with the saves.
- Scraper.StorageBackedFetcher.Fetch: a fetcher that returns neither page nor error makes both the fetch and the save it has
  already counted panic; the model stops at the first.
- Scraper.StorageBackedFetcher.Wait: it blocks while saves are pending, so the method is called when it can return; the
  waiting itself is in `Shutdown`.
- Handles.DBHandle.Open: opening is one step.
- Shutdown.ShutdownSafe: waits are called only by close listeners, as the code's constructor arranges; the pages that
  background saves store are taken to have the URLs that saving dereferences; every generator prepares a statement on the
  database it is given; nobody stops maintenance by hand or opens the handle again; each URL of a batch is a fetch of its
  own.
- ShutdownProgress.ShutdownCompletesWhateverStarts: counting a save and the return of a wait are atomic, so the panic of
  Go's wait group when a count that starts from zero meets a wait being released is not modelled; a late fetch can cause it.
- Shutdown.HandleLifecycle: listeners are not added while `Close` is at work, which the code requires without a lock; errors
  from closing statements and database change no state, and are reported by `Handles.DBHandle.Close`.
- DomainSettingsTable.DomainSettingsStorage.FetchRange: limits below zero are excluded, since making a slice of negative
  capacity panics; rows whose headers do not decode count as failing statements.
- DomainSettingsTable.DomainSettingsStorage.Save: headers are stored as given; rewriting their names to canonical form is
  not modelled.
- DomainQueries.LowerCaseStaysValid: lower case is modelled for ASCII letters and the two other characters whose lower
  case is ASCII; other letters cannot occur in valid domains or accepted queries and are left as they are.
- Migrations.PrepareForMigration: whether a dialect is known and migrations are found are parameters.
