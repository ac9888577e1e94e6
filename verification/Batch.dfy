/** The batch protocol: a loader that answers from storage, a fetcher fed by it over an unbuffered channel, and a closer
    that closes the result channel once both are done. One label is one channel operation, call return or goroutine
    exit; a run is any sequence of enabled labels. */
module Batches {
  import opened Wrappers
  import opened Bits
  import opened Urls
  import opened WebPages
  import opened Ordering

  /** The requested URLs, the URL parser and the cleaning of parsed URLs; nothing here depends on how the last two work.
      The result channel has room for one page per requested URL. */
  datatype Config = Config(urls: seq<Bytes>, parse: Bytes -> Result<Url, string>, clean: Url -> Url)

  datatype Msg = Msg(cleanedURL: Url, originalURL: Bytes)

  /** What the storage may answer to a lookup. */
  datatype StoreAnswer = Stored(page: Page) | NotFound | StoreError

  /** What became of one requested URL in the loader. */
  datatype Outcome = ParseFailed(error: string) | Hit(page: Page) | Missing(msg: Msg) | Unavailable

  /** One answer of the fetcher: a page, and an error if it is not to be stored. */
  datatype Fetch = Fetch(msg: Msg, page: Page, error: Option<string>)

  datatype Loader =
    | AtUrl(i: nat)
    | SendingFound(i: nat, page: Page)
    | HandingOff(i: nat, msg: Msg)
    | LoaderReturning
    | LoaderDone

  datatype Fetcher =
    | Receiving
    | Fetching(msg: Msg)
    | SendingFetched(fetch: Fetch)
    | Launching(fetch: Fetch)
    | FetcherReturning
    | FetcherDone

  datatype Closer = Waiting | Closing | CloserDone

  datatype State = State(
    loader: Loader, fetcher: Fetcher, closer: Closer,
    handoffClosed: bool,
    buffer: seq<Page>, delivered: seq<Page>, resultsClosed: bool,
    wg: int,
    saving: seq<Page>, saved: seq<Page>,
    panicked: bool,
    // history
    outcomes: seq<Outcome>, fetches: seq<Fetch>)

  const INITIAL := State(AtUrl(0), Receiving, Waiting, false, [], [], false, 2, [], [], false, [], [])

  datatype Label =
    | Load(answer: StoreAnswer)                       // parse, clean and look up the next URL
    | SendFound
    | HandOff                                         // send and receive on the unbuffered channel
    | FinishLoading                                   // close the unbuffered channel and return
    | FetchReturns(page: Option<Page>, error: Option<string>)
    | SendFetched
    | Launch                                          // start a background save if the fetch succeeded
    | FinishFetching                                  // the unbuffered channel is closed and drained
    | LoaderExits
    | FetcherExits
    | CloserWakes
    | CloseResults
    | SaveReturns(k: nat)
    | Receive                                         // the consumer takes a page

  function ErrorPage(url: Bytes, error: string): Page {
    BLANK.(originalURL := url, error := Some(error))
  }

  /** The copy of a fetched page that is sent: it names the input string and carries the fetcher's error. */
  function Reported(f: Fetch): Page {
    f.page.(originalURL := f.msg.originalURL, error := f.error)
  }

  function OutcomeAt(c: Config, i: nat, answer: StoreAnswer): Outcome
    requires i < |c.urls|
  {
    match c.parse(c.urls[i])
    case Failure(e) => ParseFailed(e)
    case Success(u) =>
      match answer
      case Stored(p) => Hit(p)
      case NotFound => Missing(Msg(c.clean(u), c.urls[i]))
      case StoreError => Unavailable
  }

  function AfterOutcome(c: Config, i: nat, o: Outcome): Loader
    requires i < |c.urls|
  {
    match o
    case ParseFailed(e) => SendingFound(i, ErrorPage(c.urls[i], e))
    case Hit(p) => SendingFound(i, p.(originalURL := c.urls[i]))
    case Missing(msg) => HandingOff(i, msg)
    case Unavailable => AtUrl(i + 1)
  }

  /** A send on the result channel: it waits while the channel is full and panics if it is closed. */
  function Sent(c: Config, s: State, page: Page): Option<State> {
    if s.resultsClosed then Some(s.(panicked := true))
    else if |s.buffer| < |c.urls| then Some(s.(buffer := s.buffer + [page]))
    else None
  }

  /** A counter decrement: below zero it panics. */
  function Done(s: State): State {
    if s.wg == 0 then s.(panicked := true) else s.(wg := s.wg - 1)
  }

  // One function per label: its effect, None where it is not enabled.

  function Loading(c: Config, s: State, answer: StoreAnswer): Option<State> {
    if s.loader.AtUrl? && s.loader.i < |c.urls| then
      var o := OutcomeAt(c, s.loader.i, answer);
      Some(s.(loader := AfterOutcome(c, s.loader.i, o), outcomes := s.outcomes + [o]))
    else None
  }

  function FoundSent(c: Config, s: State): Option<State> {
    if s.loader.SendingFound? then Sent(c, s.(loader := AtUrl(s.loader.i + 1)), s.loader.page) else None
  }

  function HandedOff(s: State): Option<State> {
    if s.loader.HandingOff? && s.fetcher.Receiving? then
      Some(s.(loader := AtUrl(s.loader.i + 1), fetcher := Fetching(s.loader.msg)))
    else None
  }

  function LoadingFinished(c: Config, s: State): Option<State> {
    if s.loader.AtUrl? && s.loader.i >= |c.urls| then
      if s.handoffClosed then Some(s.(panicked := true))
      else Some(s.(loader := LoaderReturning, handoffClosed := true))
    else None
  }

  function FetchReturned(s: State, page: Option<Page>, error: Option<string>): Option<State> {
    if s.fetcher.Fetching? then
      if page.None? then Some(s.(panicked := true))
      else
        var f := Fetch(s.fetcher.msg, page.value, error);
        Some(s.(fetcher := SendingFetched(f), fetches := s.fetches + [f]))
    else None
  }

  function FetchedSent(c: Config, s: State): Option<State> {
    if s.fetcher.SendingFetched? then
      Sent(c, s.(fetcher := Launching(s.fetcher.fetch)), Reported(s.fetcher.fetch))
    else None
  }

  function Launched(s: State): Option<State> {
    if s.fetcher.Launching? then
      Some(s.(fetcher := Receiving,
              saving := s.saving + if s.fetcher.fetch.error.None? then [s.fetcher.fetch.page] else []))
    else None
  }

  function FetchingFinished(s: State): Option<State> {
    if s.fetcher.Receiving? && s.handoffClosed then Some(s.(fetcher := FetcherReturning)) else None
  }

  function WorkerExited(s: State, l: Label): Option<State> {
    if l.LoaderExits? && s.loader.LoaderReturning? then Some(Done(s.(loader := LoaderDone)))
    else if l.FetcherExits? && s.fetcher.FetcherReturning? then Some(Done(s.(fetcher := FetcherDone)))
    else None
  }

  function CloserMoved(s: State, l: Label): Option<State> {
    if l.CloserWakes? && s.closer.Waiting? && s.wg == 0 then Some(s.(closer := Closing))
    else if l.CloseResults? && s.closer.Closing? then
      if s.resultsClosed then Some(s.(panicked := true))
      else Some(s.(closer := CloserDone, resultsClosed := true))
    else None
  }

  /** The end of a background save, or the panic of one that dereferences a nil URL. */
  function SaveReturned(s: State, k: nat): Option<State> {
    if k < |s.saving| then
      if SavePanics(s.saving[k]) then Some(s.(panicked := true))
      else Some(s.(saving := s.saving[..k] + s.saving[k + 1..], saved := s.saved + [s.saving[k]]))
    else None
  }

  function Received(s: State): Option<State> {
    if s.buffer != [] then Some(s.(buffer := s.buffer[1..], delivered := s.delivered + [s.buffer[0]])) else None
  }

  function Step(c: Config, s: State, l: Label): Option<State> {
    if s.panicked then None
    else match l
      case Load(answer) => Loading(c, s, answer)
      case SendFound => FoundSent(c, s)
      case HandOff => HandedOff(s)
      case FinishLoading => LoadingFinished(c, s)
      case FetchReturns(page, error) => FetchReturned(s, page, error)
      case SendFetched => FetchedSent(c, s)
      case Launch => Launched(s)
      case FinishFetching => FetchingFinished(s)
      case LoaderExits => WorkerExited(s, l)
      case FetcherExits => WorkerExited(s, l)
      case CloserWakes => CloserMoved(s, l)
      case CloseResults => CloserMoved(s, l)
      case SaveReturns(k) => SaveReturned(s, k)
      case Receive => Received(s)
  }

  /** `run` leads from the initial state to `s`. */
  ghost predicate Reaches(c: Config, run: seq<Label>, s: State)
    decreases |run|
  {
    if run == [] then s == INITIAL
    else
      var init, last := run[..|run| - 1], run[|run| - 1];
      exists r :: Reaches(c, init, r) && Step(c, r, last) == Some(s)
  }

  /** An answer of the fetcher that a batch survives: not a nil page, and if it comes without an error a page whose saving
      does not panic. */
  predicate GoodAnswer(l: Label) {
    l.FetchReturns? ==> l.page.Some? && (l.error.None? ==> !SavePanics(l.page.value))
  }

  predicate GoodAnswers(run: seq<Label>) {
    forall i | 0 <= i < |run| :: GoodAnswer(run[i])
  }

  // ---- Reference answers ----

  /** The pages the loader owes for its outcomes, in input order. */
  function FoundPages(c: Config, outcomes: seq<Outcome>): seq<Page>
    requires |outcomes| <= |c.urls|
  {
    if outcomes == [] then []
    else
      var i := |outcomes| - 1;
      FoundPages(c, outcomes[..i]) + match outcomes[i]
        case ParseFailed(e) => [ErrorPage(c.urls[i], e)]
        case Hit(p) => [p.(originalURL := c.urls[i])]
        case _ => []
  }

  /** The requests the loader passes on, in input order. */
  function MissingMsgs(outcomes: seq<Outcome>): seq<Msg> {
    if outcomes == [] then []
    else
      var i := |outcomes| - 1;
      MissingMsgs(outcomes[..i]) + if outcomes[i].Missing? then [outcomes[i].msg] else []
  }

  function ReportedPages(fetches: seq<Fetch>): seq<Page> {
    if fetches == [] then [] else ReportedPages(fetches[..|fetches| - 1]) + [Reported(fetches[|fetches| - 1])]
  }

  function MsgsOf(fetches: seq<Fetch>): seq<Msg> {
    if fetches == [] then [] else MsgsOf(fetches[..|fetches| - 1]) + [fetches[|fetches| - 1].msg]
  }

  /** `zs` interleaves `xs` and `ys`, keeping the order of each. */
  ghost predicate IsMerge<T>(xs: seq<T>, ys: seq<T>, zs: seq<T>)
    decreases |zs|
  {
    if zs == [] then xs == [] && ys == []
    else
      var n := |zs| - 1;
      || (xs != [] && xs[|xs| - 1] == zs[n] && IsMerge(xs[..|xs| - 1], ys, zs[..n]))
      || (ys != [] && ys[|ys| - 1] == zs[n] && IsMerge(xs, ys[..|ys| - 1], zs[..n]))
  }

  lemma MergeLeft<T>(xs: seq<T>, ys: seq<T>, zs: seq<T>, x: T)
    requires IsMerge(xs, ys, zs)
    ensures IsMerge(xs + [x], ys, zs + [x])
  {
    assert (xs + [x])[..|xs|] == xs && (zs + [x])[..|zs|] == zs;
  }

  lemma MergeRight<T>(xs: seq<T>, ys: seq<T>, zs: seq<T>, y: T)
    requires IsMerge(xs, ys, zs)
    ensures IsMerge(xs, ys + [y], zs + [y])
  {
    assert (ys + [y])[..|ys|] == ys && (zs + [y])[..|zs|] == zs;
  }

  lemma {:induction false} MergeLength<T>(xs: seq<T>, ys: seq<T>, zs: seq<T>)
    requires IsMerge(xs, ys, zs)
    ensures |zs| == |xs| + |ys|
    decreases |zs|
  {
    if zs != [] {
      var n := |zs| - 1;
      if xs != [] && xs[|xs| - 1] == zs[n] && IsMerge(xs[..|xs| - 1], ys, zs[..n]) {
        MergeLength(xs[..|xs| - 1], ys, zs[..n]);
      } else {
        MergeLength(xs, ys[..|ys| - 1], zs[..n]);
      }
    }
  }

  lemma LastCounts<T>(xs: seq<T>)
    requires xs != []
    ensures multiset(xs) == multiset(xs[..|xs| - 1]) + multiset{xs[|xs| - 1]}
  {
    assert xs == xs[..|xs| - 1] + [xs[|xs| - 1]];
  }

  lemma {:induction false} MergeContents<T>(xs: seq<T>, ys: seq<T>, zs: seq<T>)
    requires IsMerge(xs, ys, zs)
    ensures multiset(zs) == multiset(xs) + multiset(ys)
    decreases |zs|
  {
    if zs != [] {
      var n := |zs| - 1;
      LastCounts(zs);
      if xs != [] && xs[|xs| - 1] == zs[n] && IsMerge(xs[..|xs| - 1], ys, zs[..n]) {
        MergeContents(xs[..|xs| - 1], ys, zs[..n]);
        LastCounts(xs);
      } else {
        MergeContents(xs, ys[..|ys| - 1], zs[..n]);
        LastCounts(ys);
      }
    }
  }

  // ---- The invariant ----

  /** An outcome the loader can have reached for input `i`. */
  ghost predicate OutcomeFits(c: Config, i: nat, o: Outcome)
    requires i < |c.urls|
  {
    match c.parse(c.urls[i])
    case Failure(e) => o == ParseFailed(e)
    case Success(u) => o.Hit? || o == Missing(Msg(c.clean(u), c.urls[i])) || o == Unavailable
  }

  ghost predicate OutcomesFit(c: Config, outcomes: seq<Outcome>) {
    && |outcomes| <= |c.urls|
    && forall i | 0 <= i < |outcomes| :: OutcomeFits(c, i, outcomes[i])
  }

  ghost predicate LoaderPosition(c: Config, s: State) {
    match s.loader
    case AtUrl(i) => |s.outcomes| == i
    case SendingFound(i, page) =>
      && i < |c.urls| && |s.outcomes| == i + 1 && s.loader == AfterOutcome(c, i, s.outcomes[i])
    case HandingOff(i, msg) => i < |c.urls| && |s.outcomes| == i + 1 && s.outcomes[i] == Missing(msg)
    case _ => |s.outcomes| == |c.urls|
  }

  ghost predicate FetcherPosition(s: State) {
    match s.fetcher
    case SendingFetched(f) => s.fetches != [] && s.fetches[|s.fetches| - 1] == f
    case _ => true
  }

  /** Who has exited, and what that allows the closer to have done. */
  ghost predicate Exits(s: State) {
    && s.wg == (if s.loader.LoaderDone? then 0 else 1) + (if s.fetcher.FetcherDone? then 0 else 1)
    && (s.handoffClosed <==> s.loader.LoaderReturning? || s.loader.LoaderDone?)
    && (s.fetcher.FetcherReturning? || s.fetcher.FetcherDone? ==> s.handoffClosed)
    && (s.closer.Waiting? || s.wg == 0)
    && (s.resultsClosed <==> s.closer.CloserDone?)
  }

  /** What the loader has already sent: everything it owes but the page in its hand. */
  function LoaderSent(c: Config, s: State): seq<Page>
    requires |s.outcomes| <= |c.urls|
  {
    if s.loader.SendingFound? && s.outcomes != [] then FoundPages(c, s.outcomes[..|s.outcomes| - 1])
    else FoundPages(c, s.outcomes)
  }

  function FetcherSent(s: State): seq<Page> {
    if s.fetcher.SendingFetched? && s.fetches != [] then ReportedPages(s.fetches[..|s.fetches| - 1])
    else ReportedPages(s.fetches)
  }

  /** The requests on their way from the loader to the end of a fetch. */
  function InFlight(s: State): seq<Msg> {
    (if s.fetcher.Fetching? then [s.fetcher.msg] else [])
    + (if s.loader.HandingOff? then [s.loader.msg] else [])
  }

  /** Where the goroutines stand. */
  ghost predicate Control(c: Config, s: State) {
    !s.panicked && OutcomesFit(c, s.outcomes) && LoaderPosition(c, s) && FetcherPosition(s) && Exits(s)
  }

  /** Where the requests and the pages are. */
  ghost predicate Flow(c: Config, s: State)
    requires |s.outcomes| <= |c.urls|
  {
    && MissingMsgs(s.outcomes) == MsgsOf(s.fetches) + InFlight(s)
    && IsMerge(LoaderSent(c, s), FetcherSent(s), s.delivered + s.buffer)
  }

  ghost predicate Invariant(c: Config, s: State) {
    Control(c, s) && Flow(c, s)
  }

  lemma {:induction false} AnswersBounded(c: Config, outcomes: seq<Outcome>)
    requires |outcomes| <= |c.urls|
    ensures |FoundPages(c, outcomes)| + |MissingMsgs(outcomes)| <= |outcomes|
  {
    if outcomes != [] {
      AnswersBounded(c, outcomes[..|outcomes| - 1]);
    }
  }

  lemma {:induction false} FetchesMatch(fetches: seq<Fetch>)
    ensures |ReportedPages(fetches)| == |MsgsOf(fetches)| == |fetches|
  {
    if fetches != [] {
      FetchesMatch(fetches[..|fetches| - 1]);
    }
  }

  /** A send on the result channel would neither wait nor panic. */
  predicate HasRoom(c: Config, s: State) {
    |s.buffer| < |c.urls| && !s.resultsClosed
  }

  /** Whenever a goroutine is about to send a page, the result channel is open and has room for it, whatever the
      consumer does. */
  lemma SendHasRoom(c: Config, s: State)
    requires Invariant(c, s)
    requires s.loader.SendingFound? || s.fetcher.SendingFetched?
    ensures HasRoom(c, s)
  {
    MergeLength(LoaderSent(c, s), FetcherSent(s), s.delivered + s.buffer);
    AnswersBounded(c, s.outcomes);
    FetchesMatch(s.fetches);
    if s.loader.SendingFound? {
      AnswersBounded(c, s.outcomes[..|s.outcomes| - 1]);
    }
    if s.fetcher.SendingFetched? {
      FetchesMatch(s.fetches[..|s.fetches| - 1]);
    }
  }

  lemma FoundPagesStep(c: Config, outcomes: seq<Outcome>, o: Outcome)
    requires |outcomes| < |c.urls|
    ensures FoundPages(c, outcomes + [o]) ==
            FoundPages(c, outcomes) + (if AfterOutcome(c, |outcomes|, o).SendingFound?
                                       then [AfterOutcome(c, |outcomes|, o).page] else [])
    ensures MissingMsgs(outcomes + [o]) == MissingMsgs(outcomes) + if o.Missing? then [o.msg] else []
  {
    assert (outcomes + [o])[..|outcomes|] == outcomes;
  }

  lemma ReportedStep(fetches: seq<Fetch>, f: Fetch)
    ensures ReportedPages(fetches + [f]) == ReportedPages(fetches) + [Reported(f)]
    ensures MsgsOf(fetches + [f]) == MsgsOf(fetches) + [f.msg]
  {
    assert (fetches + [f])[..|fetches|] == fetches;
  }

  lemma LoadKeepsControl(c: Config, s: State, answer: StoreAnswer, s': State)
    requires Control(c, s) && Loading(c, s, answer) == Some(s')
    ensures Control(c, s')
  {
    var i := s.loader.i;
    var o := OutcomeAt(c, i, answer);
    assert OutcomeFits(c, i, o);
    assert forall k | 0 <= k < i :: s'.outcomes[k] == s.outcomes[k];
  }

  lemma LoadSendsNothing(c: Config, s: State, answer: StoreAnswer, s': State)
    requires Control(c, s) && Control(c, s') && Loading(c, s, answer) == Some(s')
    ensures LoaderSent(c, s') == LoaderSent(c, s) && FetcherSent(s') == FetcherSent(s)
    ensures
      var o := OutcomeAt(c, s.loader.i, answer);
      s'.outcomes == s.outcomes + [o] && InFlight(s') == InFlight(s) + if o.Missing? then [o.msg] else []
  {
    FoundPagesStep(c, s.outcomes, OutcomeAt(c, s.loader.i, answer));
    assert s'.outcomes[..|s.outcomes|] == s.outcomes;
  }

  lemma LoadKeepsInvariant(c: Config, s: State, answer: StoreAnswer, s': State)
    requires Invariant(c, s) && Loading(c, s, answer) == Some(s')
    ensures Invariant(c, s')
  {
    LoadKeepsControl(c, s, answer, s');
    LoadSendsNothing(c, s, answer, s');
    FoundPagesStep(c, s.outcomes, OutcomeAt(c, s.loader.i, answer));
  }

  lemma SendFoundKeepsControl(c: Config, s: State, s': State)
    requires Control(c, s) && FoundSent(c, s) == Some(s') && !s'.panicked
    ensures Control(c, s')
  {
  }

  lemma SendFoundAddsPage(c: Config, s: State, s': State)
    requires Control(c, s) && FoundSent(c, s) == Some(s') && !s'.panicked
    ensures s'.outcomes == s.outcomes && LoaderSent(c, s') == LoaderSent(c, s) + [s.loader.page]
  {
    var i := s.loader.i;
    FoundPagesStep(c, s.outcomes[..i], s.outcomes[i]);
    assert s.outcomes == s.outcomes[..i] + [s.outcomes[i]];
  }

  lemma SendFoundKeepsInvariant(c: Config, s: State, s': State)
    requires Invariant(c, s) && FoundSent(c, s) == Some(s')
    ensures Invariant(c, s')
  {
    SendHasRoom(c, s);
    MergeLeft(LoaderSent(c, s), FetcherSent(s), s.delivered + s.buffer, s.loader.page);
    SendFoundKeepsControl(c, s, s');
    SendFoundAddsPage(c, s, s');
    assert s'.delivered + s'.buffer == s.delivered + s.buffer + [s.loader.page];
  }

  lemma FetchReturnsKeepsControl(c: Config, s: State, page: Page, error: Option<string>, s': State)
    requires Control(c, s) && FetchReturned(s, Some(page), error) == Some(s')
    ensures Control(c, s')
  {
  }

  lemma FetchReturnsSendsNothing(c: Config, s: State, page: Page, error: Option<string>, s': State)
    requires Control(c, s) && FetchReturned(s, Some(page), error) == Some(s')
    ensures s'.outcomes == s.outcomes && s'.fetches == s.fetches + [Fetch(s.fetcher.msg, page, error)]
    ensures s'.delivered == s.delivered && s'.buffer == s.buffer
    ensures LoaderSent(c, s') == LoaderSent(c, s) && FetcherSent(s') == FetcherSent(s)
    ensures InFlight(s) == [s.fetcher.msg] + InFlight(s')
  {
    assert s'.fetches[..|s.fetches|] == s.fetches;
  }

  lemma FetchReturnsKeepsFlow(c: Config, s: State, page: Page, error: Option<string>, s': State)
    requires Invariant(c, s) && FetchReturned(s, Some(page), error) == Some(s')
    ensures s'.outcomes == s.outcomes && Flow(c, s')
  {
    var f := Fetch(s.fetcher.msg, page, error);
    FetchReturnsSendsNothing(c, s, page, error, s');
    ReportedStep(s.fetches, f);
    assert MsgsOf(s.fetches) + ([f.msg] + InFlight(s')) == (MsgsOf(s.fetches) + [f.msg]) + InFlight(s');
  }

  lemma FetchReturnsKeepsInvariant(c: Config, s: State, page: Page, error: Option<string>, s': State)
    requires Invariant(c, s) && FetchReturned(s, Some(page), error) == Some(s')
    ensures Invariant(c, s')
  {
    FetchReturnsKeepsControl(c, s, page, error, s');
    FetchReturnsKeepsFlow(c, s, page, error, s');
  }

  lemma SendFetchedKeepsControl(c: Config, s: State, s': State)
    requires Control(c, s) && FetchedSent(c, s) == Some(s') && !s'.panicked
    ensures Control(c, s')
  {
  }

  lemma SendFetchedAddsPage(c: Config, s: State, s': State)
    requires Control(c, s) && FetchedSent(c, s) == Some(s') && !s'.panicked
    ensures s'.fetches == s.fetches && FetcherSent(s') == FetcherSent(s) + [Reported(s.fetcher.fetch)]
  {
    var k := |s.fetches| - 1;
    ReportedStep(s.fetches[..k], s.fetches[k]);
    assert s.fetches == s.fetches[..k] + [s.fetches[k]];
  }

  lemma SendFetchedKeepsInvariant(c: Config, s: State, s': State)
    requires Invariant(c, s) && FetchedSent(c, s) == Some(s')
    ensures Invariant(c, s')
  {
    SendHasRoom(c, s);
    var page := Reported(s.fetcher.fetch);
    MergeRight(LoaderSent(c, s), FetcherSent(s), s.delivered + s.buffer, page);
    SendFetchedKeepsControl(c, s, s');
    SendFetchedAddsPage(c, s, s');
    assert s'.delivered + s'.buffer == s.delivered + s.buffer + [page];
  }

  /** The labels that neither find, fetch nor send a page. */
  predicate Administrative(l: Label) {
    !l.Load? && !l.SendFound? && !l.FetchReturns? && !l.SendFetched?
  }

  lemma ExitsKeepControl(c: Config, s: State, l: Label, s': State)
    requires Control(c, s) && (WorkerExited(s, l) == Some(s') || CloserMoved(s, l) == Some(s'))
    ensures Control(c, s')
  {
  }

  lemma OthersKeepControl(c: Config, s: State, l: Label, s': State)
    requires Control(c, s) && Administrative(l) && Step(c, s, l) == Some(s') && !s'.panicked
    ensures Control(c, s')
  {
    if l.LoaderExits? || l.FetcherExits? || l.CloserWakes? || l.CloseResults? {
      ExitsKeepControl(c, s, l, s');
    }
  }

  lemma HandOffKeepsFlow(c: Config, s: State, s': State)
    requires Invariant(c, s) && HandedOff(s) == Some(s')
    ensures s'.outcomes == s.outcomes && Flow(c, s')
  {
    assert LoaderSent(c, s') == LoaderSent(c, s) && FetcherSent(s') == FetcherSent(s);
    assert InFlight(s') == InFlight(s);
  }

  lemma ReceiveKeepsFlow(c: Config, s: State, s': State)
    requires Invariant(c, s) && Received(s) == Some(s')
    ensures s'.outcomes == s.outcomes && Flow(c, s')
  {
    assert s.buffer == [s.buffer[0]] + s.buffer[1..];
    assert s'.delivered + s'.buffer == s.delivered + s.buffer;
    assert LoaderSent(c, s') == LoaderSent(c, s);
    assert FetcherSent(s') == FetcherSent(s);
  }

  lemma OthersSendNothing(c: Config, s: State, l: Label, s': State)
    requires Control(c, s) && Administrative(l) && !l.HandOff? && !l.Receive? && Step(c, s, l) == Some(s') && !s'.panicked
    ensures s'.outcomes == s.outcomes && s'.fetches == s.fetches
    ensures s'.delivered == s.delivered && s'.buffer == s.buffer
    ensures LoaderSent(c, s') == LoaderSent(c, s) && FetcherSent(s') == FetcherSent(s) && InFlight(s') == InFlight(s)
  {
  }

  lemma OthersKeepFlow(c: Config, s: State, l: Label, s': State)
    requires Invariant(c, s) && Administrative(l) && !l.HandOff? && Step(c, s, l) == Some(s') && !s'.panicked
    ensures s'.outcomes == s.outcomes && Flow(c, s')
  {
    if l.Receive? {
      ReceiveKeepsFlow(c, s, s');
    } else {
      OthersSendNothing(c, s, l, s');
    }
  }

  lemma StepKeepsInvariant(c: Config, s: State, l: Label, s': State)
    requires Invariant(c, s) && Step(c, s, l) == Some(s') && !s'.panicked
    ensures Invariant(c, s')
  {
    match l {
      case Load(answer) => LoadKeepsInvariant(c, s, answer, s');
      case SendFound => SendFoundKeepsInvariant(c, s, s');
      case FetchReturns(page, error) => FetchReturnsKeepsInvariant(c, s, page.value, error, s');
      case SendFetched => SendFetchedKeepsInvariant(c, s, s');
      case HandOff =>
        OthersKeepControl(c, s, l, s');
        HandOffKeepsFlow(c, s, s');
      case _ =>
        OthersKeepControl(c, s, l, s');
        OthersKeepFlow(c, s, l, s');
    }
  }

  lemma {:induction false} ReachableInvariant(c: Config, run: seq<Label>, s: State)
    requires Reaches(c, run, s) && !s.panicked
    ensures Invariant(c, s)
    decreases |run|
  {
    if run == [] {
      assert IsMerge<Page>([], [], []);
    } else {
      var init, l := run[..|run| - 1], run[|run| - 1];
      var r :| Reaches(c, init, r) && Step(c, r, l) == Some(s);
      ReachableInvariant(c, init, r);
      StepKeepsInvariant(c, r, l, s);
    }
  }

  // ---- Progress ----

  /** Every goroutine of the batch and every background save has finished. */
  predicate Final(s: State) {
    !s.panicked && s.loader.LoaderDone? && s.fetcher.FetcherDone? && s.closer.CloserDone? && s.saving == []
  }

  /** The loader waits for the fetcher, or is gone. */
  predicate LoaderIdle(s: State) {
    s.loader.HandingOff? || s.loader.LoaderDone?
  }

  function LoaderMove(c: Config, s: State, answer: StoreAnswer): Label
    requires !LoaderIdle(s)
  {
    match s.loader
    case AtUrl(i) => if i < |c.urls| then Load(answer) else FinishLoading
    case SendingFound(_, _) => SendFound
    case _ => LoaderExits
  }

  function FetcherMove(s: State, page: Page, error: Option<string>): Label
    requires !s.fetcher.FetcherDone?
  {
    match s.fetcher
    case Receiving => if s.loader.HandingOff? then HandOff else FinishFetching
    case Fetching(_) => FetchReturns(Some(page), error)
    case SendingFetched(_) => SendFetched
    case Launching(_) => Launch
    case _ => FetcherExits
  }

  /** A move some goroutine can make, given what the storage and the fetcher would answer. The consumer is not asked. */
  function NextMove(c: Config, s: State, answer: StoreAnswer, page: Page, error: Option<string>): Label {
    if !LoaderIdle(s) then LoaderMove(c, s, answer)
    else if !s.fetcher.FetcherDone? then FetcherMove(s, page, error)
    else if s.closer.Waiting? then CloserWakes
    else if s.closer.Closing? then CloseResults
    else SaveReturns(0)
  }

  lemma LoaderCanMove(c: Config, s: State, answer: StoreAnswer)
    requires Control(c, s) && !LoaderIdle(s) && (s.loader.SendingFound? ==> HasRoom(c, s))
    ensures Step(c, s, LoaderMove(c, s, answer)).Some?
  {
  }

  lemma FetcherCanMove(c: Config, s: State, page: Page, error: Option<string>)
    requires Control(c, s) && LoaderIdle(s) && !s.fetcher.FetcherDone? && (s.fetcher.SendingFetched? ==> HasRoom(c, s))
    ensures Step(c, s, FetcherMove(s, page, error)).Some?
  {
  }

  lemma RestCanMove(c: Config, s: State, answer: StoreAnswer, page: Page, error: Option<string>)
    requires Control(c, s) && LoaderIdle(s) && s.fetcher.FetcherDone? && !Final(s)
    ensures Step(c, s, NextMove(c, s, answer, page, error)).Some?
  {
    assert s.loader.LoaderDone? && s.wg == 0;
  }

  /** No reachable state is stuck: until everything has finished some goroutine can move, whatever storage and fetcher
      answer and even if the consumer never reads. */
  lemma NeverStuck(c: Config, s: State, answer: StoreAnswer, page: Page, error: Option<string>)
    requires Invariant(c, s) && !Final(s)
    ensures !NextMove(c, s, answer, page, error).Receive?
    ensures Step(c, s, NextMove(c, s, answer, page, error)).Some?
  {
    if s.loader.SendingFound? || s.fetcher.SendingFetched? {
      SendHasRoom(c, s);
    }
    if !LoaderIdle(s) {
      LoaderCanMove(c, s, answer);
    } else if !s.fetcher.FetcherDone? {
      FetcherCanMove(c, s, page, error);
    } else {
      RestCanMove(c, s, answer, page, error);
    }
  }

  function LoaderWork(c: Config, loader: Loader): int {
    match loader
    case AtUrl(i) => 10 * (|c.urls| - i) + 5
    case SendingFound(i, _) => 10 * (|c.urls| - i) - 2
    case HandingOff(i, _) => 10 * (|c.urls| - i) + 4
    case LoaderReturning => 2
    case LoaderDone => 0
  }

  function FetcherWork(fetcher: Fetcher): nat {
    match fetcher
    case Receiving => 2
    case Fetching(_) => 8
    case SendingFetched(_) => 7
    case Launching(_) => 5
    case FetcherReturning => 1
    case FetcherDone => 0
  }

  /** The work left in a state. */
  function Work(c: Config, s: State): int {
    LoaderWork(c, s.loader) + FetcherWork(s.fetcher)
    + (match s.closer case Waiting => 2 case Closing => 1 case CloserDone => 0)
    + |s.buffer| + 2 * |s.saving|
  }

  lemma WorkDrops(c: Config, s: State, l: Label, s': State)
    requires Control(c, s) && Step(c, s, l) == Some(s') && !s'.panicked
    ensures Work(c, s') < Work(c, s)
  {
  }

  lemma WorkNonNegative(c: Config, s: State)
    requires Invariant(c, s)
    ensures Work(c, s) >= 0
  {
  }

  /** No run, with or without a reading consumer, has more than ten labels per URL and nine besides, and one more if it
      ends in a panic. */
  lemma {:induction false} RunsAreBounded(c: Config, run: seq<Label>, s: State)
    requires Reaches(c, run, s)
    ensures |run| <= 10 * |c.urls| + if s.panicked then 10 else 9 - Work(c, s)
    decreases |run|
  {
    if run != [] {
      var init, l := run[..|run| - 1], run[|run| - 1];
      var r :| Reaches(c, init, r) && Step(c, r, l) == Some(s);
      RunsAreBounded(c, init, r);
      ReachableInvariant(c, init, r);
      if s.panicked {
        WorkNonNegative(c, r);
      } else {
        WorkDrops(c, r, l, s);
      }
    }
  }

  // ---- The results ----

  /** Outcomes that answer nothing: the storage failed with an error other than not-found. */
  function UnansweredUrls(c: Config, outcomes: seq<Outcome>): seq<Bytes>
    requires |outcomes| <= |c.urls|
  {
    if outcomes == [] then []
    else
      var i := |outcomes| - 1;
      UnansweredUrls(c, outcomes[..i]) + if outcomes[i].Unavailable? then [c.urls[i]] else []
  }

  function OriginalURLs(pages: seq<Page>): seq<Bytes> {
    seq(|pages|, i requires 0 <= i < |pages| => pages[i].originalURL)
  }

  function MsgUrls(msgs: seq<Msg>): seq<Bytes> {
    seq(|msgs|, i requires 0 <= i < |msgs| => msgs[i].originalURL)
  }

  /** The inputs accounted for by a list of outcomes: answered by the loader, passed on, or unanswered. */
  ghost function Accounted(c: Config, outcomes: seq<Outcome>): multiset<Bytes>
    requires |outcomes| <= |c.urls|
  {
    multiset(OriginalURLs(FoundPages(c, outcomes))) + multiset(MsgUrls(MissingMsgs(outcomes)))
    + multiset(UnansweredUrls(c, outcomes))
  }

  lemma AccountLists(c: Config, outcomes: seq<Outcome>, o: Outcome)
    requires |outcomes| < |c.urls| && OutcomeFits(c, |outcomes|, o)
    ensures
      var url := c.urls[|outcomes|];
      && OriginalURLs(FoundPages(c, outcomes + [o])) ==
         OriginalURLs(FoundPages(c, outcomes)) + (if o.ParseFailed? || o.Hit? then [url] else [])
      && MsgUrls(MissingMsgs(outcomes + [o])) == MsgUrls(MissingMsgs(outcomes)) + (if o.Missing? then [url] else [])
      && UnansweredUrls(c, outcomes + [o]) == UnansweredUrls(c, outcomes) + (if o.Unavailable? then [url] else [])
  {
    FoundPagesStep(c, outcomes, o);
    assert (outcomes + [o])[..|outcomes|] == outcomes;
  }

  lemma AccountStep(c: Config, outcomes: seq<Outcome>, o: Outcome)
    requires |outcomes| < |c.urls| && OutcomeFits(c, |outcomes|, o)
    ensures Accounted(c, outcomes + [o]) == Accounted(c, outcomes) + multiset{c.urls[|outcomes|]}
  {
    AccountLists(c, outcomes, o);
    OneMore(OriginalURLs(FoundPages(c, outcomes)), MsgUrls(MissingMsgs(outcomes)), UnansweredUrls(c, outcomes),
            c.urls[|outcomes|]);
  }

  lemma OneMore<T>(a: seq<T>, b: seq<T>, d: seq<T>, x: T)
    ensures multiset(a + [x]) + multiset(b + []) + multiset(d + [])
            == multiset(a + []) + multiset(b + [x]) + multiset(d + [])
            == multiset(a + []) + multiset(b + []) + multiset(d + [x])
            == multiset(a) + multiset(b) + multiset(d) + multiset{x}
  {
    assert a + [] == a && b + [] == b && d + [] == d;
  }

  /** Every input is answered by the loader, passed on, or unanswered, exactly once. */
  lemma {:induction false} EveryUrlAccounted(c: Config, outcomes: seq<Outcome>)
    requires OutcomesFit(c, outcomes)
    ensures Accounted(c, outcomes) == multiset(c.urls[..|outcomes|])
  {
    if outcomes != [] {
      var i := |outcomes| - 1;
      EveryUrlAccounted(c, outcomes[..i]);
      AccountStep(c, outcomes[..i], outcomes[i]);
      assert outcomes == outcomes[..i] + [outcomes[i]];
      assert c.urls[..i + 1] == c.urls[..i] + [c.urls[i]];
    }
  }

  lemma OriginalsAppend(a: seq<Page>, b: seq<Page>)
    ensures OriginalURLs(a + b) == OriginalURLs(a) + OriginalURLs(b)
  {
  }

  lemma MsgUrlsAppend(a: seq<Msg>, b: seq<Msg>)
    ensures MsgUrls(a + b) == MsgUrls(a) + MsgUrls(b)
  {
  }

  lemma {:induction false} ReportedUrls(fetches: seq<Fetch>)
    ensures OriginalURLs(ReportedPages(fetches)) == MsgUrls(MsgsOf(fetches))
  {
    if fetches != [] {
      var k := |fetches| - 1;
      ReportedUrls(fetches[..k]);
      OriginalsAppend(ReportedPages(fetches[..k]), [Reported(fetches[k])]);
      MsgUrlsAppend(MsgsOf(fetches[..k]), [fetches[k].msg]);
    }
  }

  /** At the end of every run the results are the loader's pages and the fetcher's pages, each in its own order and each
      once, one outcome per input and one fetch per request passed on. */
  lemma BatchConservesInput(c: Config, run: seq<Label>, s: State)
    requires Reaches(c, run, s) && Final(s)
    ensures |s.outcomes| == |c.urls| && OutcomesFit(c, s.outcomes)
    ensures MsgsOf(s.fetches) == MissingMsgs(s.outcomes)
    ensures IsMerge(FoundPages(c, s.outcomes), ReportedPages(s.fetches), s.delivered + s.buffer)
  {
    ReachableInvariant(c, run, s);
    assert InFlight(s) == [];
  }

  /** So the results name every input string exactly once, except those whose storage lookup failed. */
  lemma BatchAnswersEachInputOnce(c: Config, run: seq<Label>, s: State)
    requires Reaches(c, run, s) && Final(s)
    ensures |s.outcomes| == |c.urls|
    ensures multiset(OriginalURLs(s.delivered + s.buffer)) + multiset(UnansweredUrls(c, s.outcomes)) == multiset(c.urls)
  {
    BatchConservesInput(c, run, s);
    EveryUrlAccounted(c, s.outcomes);
    assert c.urls[..|c.urls|] == c.urls;
    ReportedUrls(s.fetches);
    var found, reported := FoundPages(c, s.outcomes), ReportedPages(s.fetches);
    MergedUrls(found, reported, s.delivered + s.buffer);
    MergeContents(OriginalURLs(found), OriginalURLs(reported), OriginalURLs(s.delivered + s.buffer));
  }

  lemma {:induction false} MergedUrls(xs: seq<Page>, ys: seq<Page>, zs: seq<Page>)
    requires IsMerge(xs, ys, zs)
    ensures IsMerge(OriginalURLs(xs), OriginalURLs(ys), OriginalURLs(zs))
    decreases |zs|
  {
    if zs != [] {
      var n := |zs| - 1;
      assert OriginalURLs(zs)[..n] == OriginalURLs(zs[..n]);
      if xs != [] && xs[|xs| - 1] == zs[n] && IsMerge(xs[..|xs| - 1], ys, zs[..n]) {
        MergedUrls(xs[..|xs| - 1], ys, zs[..n]);
        assert OriginalURLs(xs)[..|xs| - 1] == OriginalURLs(xs[..|xs| - 1]);
      } else {
        MergedUrls(xs, ys[..|ys| - 1], zs[..n]);
        assert OriginalURLs(ys)[..|ys| - 1] == OriginalURLs(ys[..|ys| - 1]);
      }
    }
  }

  /** The safety of every run: only an answer of the fetcher that it cannot survive makes a goroutine panic; until then a
      page about to be sent always finds room in an open channel, and the result channel is closed only after both
      workers have exited; closing it twice would be a panic. */
  lemma BatchSafe(c: Config, run: seq<Label>, s: State)
    requires Reaches(c, run, s)
    ensures GoodAnswers(run) ==> !s.panicked
    ensures !s.panicked && s.loader.SendingFound? ==> Step(c, s, SendFound).Some?
    ensures !s.panicked && s.fetcher.SendingFetched? ==> Step(c, s, SendFetched).Some?
    ensures !s.panicked && s.resultsClosed ==> s.loader.LoaderDone? && s.fetcher.FetcherDone?
  {
    if GoodAnswers(run) {
      GoodRunsDoNotPanic(c, run, s);
    }
    if !s.panicked {
      ReachableInvariant(c, run, s);
      if s.loader.SendingFound? || s.fetcher.SendingFetched? {
        SendHasRoom(c, s);
      }
    }
  }

  /** Batch always finishes: a run that no goroutine can continue has closed the result channel and finished every save,
      unless an answer of the fetcher made it panic, and such an end is at most a bounded number of labels away. */
  lemma BatchFinishes(c: Config, run: seq<Label>, s: State)
    requires Reaches(c, run, s)
    requires forall l: Label :: Step(c, s, l).Some? ==> l.Receive?
    ensures if s.panicked then !GoodAnswers(run) else Final(s) && s.resultsClosed
    ensures |run| <= 10 * |c.urls| + 10
  {
    RunsAreBounded(c, run, s);
    if s.panicked {
      BatchSafe(c, run, s);
    } else {
      ReachableInvariant(c, run, s);
      WorkNonNegative(c, s);
      if !Final(s) {
        NeverStuck(c, s, NotFound, BLANK, None);
      }
    }
  }

  // ---- What is saved ----

  /** Whatever holds of every page the fetcher returns without an error holds of every page a batch saves. */
  lemma {:induction false} SavedPagesAreSuccesses(c: Config, run: seq<Label>, s: State, good: Page -> bool)
    requires Reaches(c, run, s)
    requires forall i | 0 <= i < |run| ::
               run[i].FetchReturns? && run[i].page.Some? && run[i].error.None? ==> good(run[i].page.value)
    ensures forall p | p in s.saving + s.saved :: good(p)
    ensures s.fetcher.SendingFetched? || s.fetcher.Launching? ==>
              s.fetcher.fetch.error.None? ==> good(s.fetcher.fetch.page)
    decreases |run|
  {
    if run != [] {
      var init, l := run[..|run| - 1], run[|run| - 1];
      var r :| Reaches(c, init, r) && Step(c, r, l) == Some(s);
      SavedPagesAreSuccesses(c, init, r, good);
      SuccessStep(c, r, l, s, good);
    }
  }

  lemma SuccessStep(c: Config, r: State, l: Label, s: State, good: Page -> bool)
    requires Step(c, r, l) == Some(s)
    requires l.FetchReturns? && l.page.Some? && l.error.None? ==> good(l.page.value)
    requires forall p | p in r.saving + r.saved :: good(p)
    requires r.fetcher.SendingFetched? || r.fetcher.Launching? ==>
               r.fetcher.fetch.error.None? ==> good(r.fetcher.fetch.page)
    ensures forall p | p in s.saving + s.saved :: good(p)
    ensures s.fetcher.SendingFetched? || s.fetcher.Launching? ==>
              s.fetcher.fetch.error.None? ==> good(s.fetcher.fetch.page)
  {
    forall p | p in s.saving + s.saved ensures good(p) {
      if p !in r.saving + r.saved {
        assert l.Launch? && p == r.fetcher.fetch.page;
      }
    }
  }

  // ---- Exactly when a batch panics ----

  lemma GoodStepDoesNotPanic(c: Config, s: State, l: Label, s': State)
    requires Invariant(c, s) && Step(c, s, l) == Some(s') && GoodAnswer(l)
    requires forall k | 0 <= k < |s.saving| :: !SavePanics(s.saving[k])
    ensures !s'.panicked
  {
    if s.loader.SendingFound? || s.fetcher.SendingFetched? {
      SendHasRoom(c, s);
    }
  }

  lemma GoodAnswersLast(run: seq<Label>)
    requires run != []
    ensures GoodAnswers(run) <==> GoodAnswers(run[..|run| - 1]) && GoodAnswer(run[|run| - 1])
  {
    var init := run[..|run| - 1];
    assert forall i | 0 <= i < |init| :: init[i] == run[i];
  }

  lemma GoodRunsDoNotPanic(c: Config, run: seq<Label>, s: State)
    requires Reaches(c, run, s) && GoodAnswers(run)
    ensures !s.panicked
  {
    if run != [] {
      var init, l := run[..|run| - 1], run[|run| - 1];
      var r :| Reaches(c, init, r) && Step(c, r, l) == Some(s);
      GoodAnswersLast(run);
      ReachableInvariant(c, init, r);
      SavedPagesAreSuccesses(c, init, r, p => !SavePanics(p));
      forall k | 0 <= k < |r.saving| ensures !SavePanics(r.saving[k]) {
        assert r.saving[k] in r.saving + r.saved;
      }
      GoodStepDoesNotPanic(c, r, l, s);
    }
  }

  /** A page whose saving will panic is on its way to a save. */
  ghost predicate PanicPends(s: State) {
    || (exists k | 0 <= k < |s.saving| :: SavePanics(s.saving[k]))
    || ((s.fetcher.SendingFetched? || s.fetcher.Launching?)
        && s.fetcher.fetch.error.None? && SavePanics(s.fetcher.fetch.page))
  }

  lemma PanickingSaveStays(c: Config, s: State, l: Label, s': State, k: nat)
    requires k < |s.saving| && SavePanics(s.saving[k]) && Step(c, s, l) == Some(s') && !s'.panicked
    ensures PanicPends(s')
  {
    if l.SaveReturns? {
      assert s'.saving[if l.k < k then k - 1 else k] == s.saving[k];
    } else {
      assert s'.saving[k] == s.saving[k];
    }
  }

  lemma PanickingFetchStays(c: Config, s: State, l: Label, s': State)
    requires s.fetcher.SendingFetched? || s.fetcher.Launching?
    requires s.fetcher.fetch.error.None? && SavePanics(s.fetcher.fetch.page)
    requires Step(c, s, l) == Some(s') && !s'.panicked
    ensures PanicPends(s')
  {
    if l.Launch? {
      assert s'.saving[|s.saving|] == s.fetcher.fetch.page;
    } else {
      assert s'.fetcher == if l.SendFetched? then Launching(s.fetcher.fetch) else s.fetcher;
    }
  }

  lemma PendingPanicStays(c: Config, s: State, l: Label, s': State)
    requires PanicPends(s) && Step(c, s, l) == Some(s') && !s'.panicked
    ensures PanicPends(s')
  {
    if k :| 0 <= k < |s.saving| && SavePanics(s.saving[k]) {
      PanickingSaveStays(c, s, l, s', k);
    } else {
      PanickingFetchStays(c, s, l, s');
    }
  }

  lemma {:induction false} BadAnswerPends(c: Config, run: seq<Label>, s: State)
    requires Reaches(c, run, s) && !s.panicked && !GoodAnswers(run)
    ensures PanicPends(s)
    decreases |run|
  {
    var init, l := run[..|run| - 1], run[|run| - 1];
    var r :| Reaches(c, init, r) && Step(c, r, l) == Some(s);
    GoodAnswersLast(run);
    if !GoodAnswers(init) {
      BadAnswerPends(c, init, r);
      PendingPanicStays(c, r, l, s);
    }
  }

  lemma OneMoreLabel(c: Config, run: seq<Label>, s: State, l: Label, s': State)
    requires Reaches(c, run, s) && Step(c, s, l) == Some(s')
    ensures Reaches(c, run + [l], s')
  {
    assert (run + [l])[..|run|] == run;
  }

  /** Such a page is at most two labels away from its save. */
  lemma PanicReachesSave(c: Config, s: State) returns (l: Label, s': State)
    requires Invariant(c, s) && PanicPends(s) && (s.fetcher.SendingFetched? || s.fetcher.Launching?)
    ensures l.SendFetched? || l.Launch?
    ensures Step(c, s, l) == Some(s') && !s'.panicked && PanicPends(s')
    ensures s.fetcher.Launching? ==> s'.fetcher.Receiving?
    ensures s.fetcher.SendingFetched? ==> s'.fetcher.Launching?
  {
    if s.fetcher.SendingFetched? {
      SendHasRoom(c, s);
      l := SendFetched;
    } else {
      l := Launch;
    }
    s' := Step(c, s, l).value;
    PendingPanicStays(c, s, l, s');
  }

  lemma ThenRest(c: Config, run: seq<Label>, l: Label, rest: seq<Label>, s': State)
    requires Reaches(c, (run + [l]) + rest, s') && GoodAnswer(l) && GoodAnswers(rest)
    ensures Reaches(c, run + ([l] + rest), s') && GoodAnswers([l] + rest)
  {
    assert (run + [l]) + rest == run + ([l] + rest);
  }

  lemma PanickingSave(c: Config, run: seq<Label>, s: State) returns (l: Label)
    requires Reaches(c, run, s) && !s.panicked && exists k | 0 <= k < |s.saving| :: SavePanics(s.saving[k])
    ensures GoodAnswers([l]) && Reaches(c, run + [l], s.(panicked := true))
  {
    var k :| 0 <= k < |s.saving| && SavePanics(s.saving[k]);
    l := SaveReturns(k);
    OneMoreLabel(c, run, s, l, s.(panicked := true));
  }

  lemma PanicFrom(c: Config, run: seq<Label>, s: State) returns (more: seq<Label>, s': State)
    requires Reaches(c, run, s) && !s.panicked && PanicPends(s)
    ensures GoodAnswers(more) && Reaches(c, run + more, s') && s'.panicked
    decreases if s.fetcher.SendingFetched? then 2 else if s.fetcher.Launching? then 1 else 0
  {
    if s.fetcher.SendingFetched? || s.fetcher.Launching? {
      ReachableInvariant(c, run, s);
      var l, m := PanicReachesSave(c, s);
      OneMoreLabel(c, run, s, l, m);
      var rest;
      rest, s' := PanicFrom(c, run + [l], m);
      more := [l] + rest;
      ThenRest(c, run, l, rest, s');
    } else {
      var l := PanickingSave(c, run, s);
      more, s' := [l], s.(panicked := true);
    }
  }

  /** Exactly when a batch is sure to survive: no continuation with good answers panics if and only if every answer of the
      fetcher so far was a page, and every one without an error a page that can be saved without a panic. */
  lemma PanicFreeExactly(c: Config, run: seq<Label>, s: State)
    requires Reaches(c, run, s)
    ensures GoodAnswers(run) <==>
            forall more, s' | GoodAnswers(more) && Reaches(c, run + more, s') :: !s'.panicked
  {
    if GoodAnswers(run) {
      forall more, s' | GoodAnswers(more) && Reaches(c, run + more, s') ensures !s'.panicked {
        GoodRunsDoNotPanic(c, run + more, s');
      }
    } else if s.panicked {
      assert run + [] == run && GoodAnswers([]);
    } else {
      BadAnswerPends(c, run, s);
      var more, s' := PanicFrom(c, run, s);
    }
  }

  // ---- The history is the run ----

  /** What storage answered, lookup by lookup. */
  function LoadAnswers(run: seq<Label>): seq<StoreAnswer> {
    if run == [] then []
    else LoadAnswers(run[..|run| - 1]) + if run[|run| - 1].Load? then [run[|run| - 1].answer] else []
  }

  /** What the fetcher returned, fetch by fetch. */
  function FetchAnswers(run: seq<Label>): seq<(Option<Page>, Option<string>)> {
    if run == [] then []
    else
      var l := run[|run| - 1];
      FetchAnswers(run[..|run| - 1]) + if l.FetchReturns? then [(l.page, l.error)] else []
  }

  /** What a URL and the answer of storage make of it: an unparsable URL is answered with its error, a stored page is
      found, a page not found is fetched, and any other error leaves the URL without an answer. */
  ghost predicate OutcomeFollows(c: Config, i: nat, answer: StoreAnswer, o: Outcome)
    requires i < |c.urls|
  {
    var parsed := c.parse(c.urls[i]);
    && (o.ParseFailed? <==> parsed.Failure?)
    && (o.ParseFailed? ==> parsed == Failure(o.error))
    && (o.Hit? <==> parsed.Success? && answer.Stored?)
    && (o.Hit? ==> answer == Stored(o.page))
    && (o.Missing? <==> parsed.Success? && answer.NotFound?)
    && (o.Missing? ==> o.msg.originalURL == c.urls[i] && o.msg.cleanedURL == c.clean(parsed.value))
    && (o.Unavailable? <==> parsed.Success? && answer.StoreError?)
  }

  lemma OutcomeAtFollows(c: Config, i: nat, answer: StoreAnswer)
    requires i < |c.urls|
    ensures OutcomeFollows(c, i, answer, OutcomeAt(c, i, answer))
  {
  }

  /** What one step adds to the outcomes. */
  lemma HistoryStep(c: Config, r: State, l: Label, s: State)
    requires LoaderPosition(c, r) && |r.outcomes| <= |c.urls|
    requires Step(c, r, l) == Some(s) && !s.panicked
    ensures l.Load? ==> |r.outcomes| < |c.urls| && s.outcomes == r.outcomes + [OutcomeAt(c, |r.outcomes|, l.answer)]
    ensures !l.Load? ==> s.outcomes == r.outcomes
  {
  }

  lemma ReachablePosition(c: Config, run: seq<Label>, s: State)
    requires Reaches(c, run, s) && !s.panicked
    ensures LoaderPosition(c, s) && |s.outcomes| <= |c.urls|
  {
    ReachableInvariant(c, run, s);
  }

  ghost predicate Follow(c: Config, answers: seq<StoreAnswer>, outcomes: seq<Outcome>) {
    && |outcomes| == |answers| <= |c.urls|
    && forall i | 0 <= i < |outcomes| :: OutcomeFollows(c, i, answers[i], outcomes[i])
  }

  ghost predicate Report(answers: seq<(Option<Page>, Option<string>)>, fetches: seq<Fetch>) {
    && |fetches| == |answers|
    && forall i | 0 <= i < |fetches| :: answers[i] == (Some(fetches[i].page), fetches[i].error)
  }

  lemma FollowGrows(c: Config, answers: seq<StoreAnswer>, outcomes: seq<Outcome>, answer: StoreAnswer)
    requires Follow(c, answers, outcomes) && |outcomes| < |c.urls|
    ensures Follow(c, answers + [answer], outcomes + [OutcomeAt(c, |outcomes|, answer)])
  {
    OutcomeAtFollows(c, |outcomes|, answer);
  }

  lemma ReportGrows(answers: seq<(Option<Page>, Option<string>)>, fetches: seq<Fetch>, f: Fetch)
    requires Report(answers, fetches)
    ensures Report(answers + [(Some(f.page), f.error)], fetches + [f])
  {
  }

  lemma FollowStep(c: Config, answers: seq<StoreAnswer>, r: State, l: Label, s: State)
    requires LoaderPosition(c, r) && Follow(c, answers, r.outcomes)
    requires Step(c, r, l) == Some(s) && !s.panicked
    ensures Follow(c, answers + if l.Load? then [l.answer] else [], s.outcomes)
  {
    HistoryStep(c, r, l, s);
    if l.Load? {
      FollowGrows(c, answers, r.outcomes, l.answer);
    }
  }

  lemma ReportStep(c: Config, answers: seq<(Option<Page>, Option<string>)>, r: State, l: Label, s: State)
    requires Report(answers, r.fetches) && Step(c, r, l) == Some(s) && !s.panicked
    ensures Report(answers + if l.FetchReturns? then [(l.page, l.error)] else [], s.fetches)
  {
    if l.FetchReturns? {
      ReportGrows(answers, r.fetches, Fetch(r.fetcher.msg, l.page.value, l.error));
    } else {
      assert s.fetches == r.fetches;
    }
  }

  /** In every run the outcome of each URL is what the answer of storage to it calls for, and the fetches are what the
      fetcher returned, in order. */
  lemma {:induction false} OutcomesFollowTheRun(c: Config, run: seq<Label>, s: State)
    requires Reaches(c, run, s) && !s.panicked
    ensures Follow(c, LoadAnswers(run), s.outcomes) && Report(FetchAnswers(run), s.fetches)
    decreases |run|
  {
    if run != [] {
      var init, l := run[..|run| - 1], run[|run| - 1];
      var r :| Reaches(c, init, r) && Step(c, r, l) == Some(s);
      OutcomesFollowTheRun(c, init, r);
      ReachablePosition(c, init, r);
      FollowStep(c, LoadAnswers(init), r, l, s);
      ReportStep(c, FetchAnswers(init), r, l, s);
    }
  }

  // ---- What is delivered and what is saved ----

  /** The page the loader sends for an input, by what its parse and storage answer. */
  ghost predicate LoadedAs(c: Config, i: nat, answer: StoreAnswer, page: Page)
    requires i < |c.urls|
  {
    page.originalURL == c.urls[i] &&
    match c.parse(c.urls[i])
    case Failure(e) => page.error == Some(e) && page.(originalURL := [], error := None) == BLANK
    case Success(_) => answer.Stored? && page.(originalURL := answer.page.originalURL) == answer.page
  }

  /** The page sent for an input that is fetched: the page answered, but with the error of the answer and the input. */
  ghost predicate FetchedAs(url: Bytes, answer: (Option<Page>, Option<string>), page: Page) {
    && page.originalURL == url && page.error == answer.1 && answer.0.Some?
    && page.(originalURL := answer.0.value.originalURL, error := answer.0.value.error) == answer.0.value
  }

  ghost predicate IsFound(c: Config, answers: seq<StoreAnswer>, i: nat) {
    i < |c.urls| && i < |answers| && (c.parse(c.urls[i]).Failure? || answers[i].Stored?)
  }

  ghost predicate IsMissing(c: Config, answers: seq<StoreAnswer>, i: nat) {
    i < |c.urls| && i < |answers| && c.parse(c.urls[i]).Success? && answers[i].NotFound?
  }

  function FoundAt(outcomes: seq<Outcome>): seq<nat> {
    Positions(outcomes, (o: Outcome) => o.ParseFailed? || o.Hit?)
  }

  function MissingAt(outcomes: seq<Outcome>): seq<nat> {
    Positions(outcomes, (o: Outcome) => o.Missing?)
  }

  lemma {:induction false} FoundPagesAt(c: Config, outcomes: seq<Outcome>)
    requires |outcomes| <= |c.urls|
    ensures |FoundPages(c, outcomes)| == |FoundAt(outcomes)|
    ensures forall j | 0 <= j < |FoundAt(outcomes)| ::
              var i := FoundAt(outcomes)[j];
              i < |outcomes| && AfterOutcome(c, i, outcomes[i]) == SendingFound(i, FoundPages(c, outcomes)[j])
  {
    if outcomes != [] {
      FoundPagesAt(c, outcomes[..|outcomes| - 1]);
    }
  }

  lemma {:induction false} MissingMsgsAt(outcomes: seq<Outcome>)
    ensures |MissingMsgs(outcomes)| == |MissingAt(outcomes)|
    ensures forall j | 0 <= j < |MissingAt(outcomes)| ::
              MissingAt(outcomes)[j] < |outcomes| && outcomes[MissingAt(outcomes)[j]] == Missing(MissingMsgs(outcomes)[j])
  {
    if outcomes != [] {
      MissingMsgsAt(outcomes[..|outcomes| - 1]);
    }
  }

  lemma {:induction false} FetchesAt(fetches: seq<Fetch>)
    ensures |ReportedPages(fetches)| == |MsgsOf(fetches)| == |fetches|
    ensures forall k | 0 <= k < |fetches| ::
              ReportedPages(fetches)[k] == Reported(fetches[k]) && MsgsOf(fetches)[k] == fetches[k].msg
  {
    if fetches != [] {
      FetchesAt(fetches[..|fetches| - 1]);
    }
  }

  lemma LoadedPages(c: Config, answers: seq<StoreAnswer>, outcomes: seq<Outcome>)
    requires Follow(c, answers, outcomes)
    ensures |FoundPages(c, outcomes)| == |FoundAt(outcomes)| && Ascends(FoundAt(outcomes))
    ensures forall i: nat :: i in FoundAt(outcomes) <==> IsFound(c, answers, i)
    ensures forall j | 0 <= j < |FoundAt(outcomes)| ::
              var i := FoundAt(outcomes)[j];
              i < |answers| && LoadedAs(c, i, answers[i], FoundPages(c, outcomes)[j])
  {
    FoundPagesAt(c, outcomes);
    PositionsAre(outcomes, (o: Outcome) => o.ParseFailed? || o.Hit?);
    forall i: nat ensures i in FoundAt(outcomes) <==> IsFound(c, answers, i) {
      assert i < |outcomes| ==> OutcomeFollows(c, i, answers[i], outcomes[i]);
    }
    forall j | 0 <= j < |FoundAt(outcomes)|
      ensures
        var i := FoundAt(outcomes)[j];
        i < |answers| && LoadedAs(c, i, answers[i], FoundPages(c, outcomes)[j])
    {
      var i := FoundAt(outcomes)[j];
      assert OutcomeFollows(c, i, answers[i], outcomes[i]);
    }
  }

  lemma PassedOn(c: Config, answers: seq<StoreAnswer>, outcomes: seq<Outcome>)
    requires Follow(c, answers, outcomes)
    ensures |MissingMsgs(outcomes)| == |MissingAt(outcomes)| && Ascends(MissingAt(outcomes))
    ensures forall i: nat :: i in MissingAt(outcomes) <==> IsMissing(c, answers, i)
    ensures forall j | 0 <= j < |MissingAt(outcomes)| ::
              MissingAt(outcomes)[j] < |c.urls| && MissingMsgs(outcomes)[j].originalURL == c.urls[MissingAt(outcomes)[j]]
  {
    MissingMsgsAt(outcomes);
    PositionsAre(outcomes, (o: Outcome) => o.Missing?);
    forall i: nat ensures i in MissingAt(outcomes) <==> IsMissing(c, answers, i) {
      assert i < |outcomes| ==> OutcomeFollows(c, i, answers[i], outcomes[i]);
    }
    forall j | 0 <= j < |MissingAt(outcomes)|
      ensures MissingAt(outcomes)[j] < |c.urls|
              && MissingMsgs(outcomes)[j].originalURL == c.urls[MissingAt(outcomes)[j]]
    {
      var i := MissingAt(outcomes)[j];
      assert OutcomeFollows(c, i, answers[i], outcomes[i]);
    }
  }

  lemma ReportedAs(answers: seq<(Option<Page>, Option<string>)>, fetches: seq<Fetch>)
    requires Report(answers, fetches)
    ensures |ReportedPages(fetches)| == |MsgsOf(fetches)| == |answers|
    ensures forall k | 0 <= k < |answers| ::
              FetchedAs(MsgsOf(fetches)[k].originalURL, answers[k], ReportedPages(fetches)[k])
  {
    FetchesAt(fetches);
  }

  /** What a finished batch delivers, in terms of the labels of its run: for the inputs that do not parse, a page with
      nothing but the input and the parse error; for those found in storage, the stored page under the input; for those
      not found, in their order, the pages the fetcher answered, each with the error of its answer and under its input.
      Loaded and fetched pages keep their order and interleave freely. */
  lemma BatchDelivers(c: Config, run: seq<Label>, s: State)
    returns (found: seq<nat>, missing: seq<nat>, loaded: seq<Page>, fetched: seq<Page>)
    requires Reaches(c, run, s) && Final(s)
    ensures IsMerge(loaded, fetched, s.delivered + s.buffer) && |LoadAnswers(run)| == |c.urls|
    ensures Ascends(found) && Ascends(missing)
    ensures forall i: nat :: i in found <==> IsFound(c, LoadAnswers(run), i)
    ensures forall i: nat :: i in missing <==> IsMissing(c, LoadAnswers(run), i)
    ensures |loaded| == |found| && |fetched| == |missing| == |FetchAnswers(run)|
    ensures forall j | 0 <= j < |found| ::
              found[j] < |c.urls| && LoadedAs(c, found[j], LoadAnswers(run)[found[j]], loaded[j])
    ensures forall k | 0 <= k < |missing| ::
              missing[k] < |c.urls| && FetchedAs(c.urls[missing[k]], FetchAnswers(run)[k], fetched[k])
  {
    BatchConservesInput(c, run, s);
    OutcomesFollowTheRun(c, run, s);
    found, missing := FoundAt(s.outcomes), MissingAt(s.outcomes);
    loaded, fetched := FoundPages(c, s.outcomes), ReportedPages(s.fetches);
    LoadedPages(c, LoadAnswers(run), s.outcomes);
    PassedOn(c, LoadAnswers(run), s.outcomes);
    ReportedAs(FetchAnswers(run), s.fetches);
  }

  /** The pages answered without an error, in order. */
  function Successes(answers: seq<(Option<Page>, Option<string>)>): seq<Page> {
    if answers == [] then []
    else
      var (page, error) := answers[|answers| - 1];
      Successes(answers[..|answers| - 1]) + if page.Some? && error.None? then [page.value] else []
  }

  /** A success that is not yet handed to a save. */
  function InHand(s: State): seq<Page> {
    if (s.fetcher.SendingFetched? || s.fetcher.Launching?) && s.fetcher.fetch.error.None? then [s.fetcher.fetch.page]
    else []
  }

  function Held(s: State): multiset<Page> {
    multiset(s.saved) + multiset(s.saving) + multiset(InHand(s))
  }

  lemma LaunchHolds(r: State, s: State)
    requires Launched(r) == Some(s)
    ensures Held(s) == Held(r)
  {
    assert s.saving == r.saving + InHand(r) && InHand(s) == [];
  }

  lemma SaveHolds(r: State, k: nat, s: State)
    requires SaveReturned(r, k) == Some(s) && !s.panicked
    ensures Held(s) == Held(r)
  {
    OneTaken(r.saving, k);
    assert InHand(s) == InHand(r);
  }

  lemma AnswerHolds(r: State, page: Option<Page>, error: Option<string>, s: State)
    requires FetchReturned(r, page, error) == Some(s) && !s.panicked
    ensures Held(s) == Held(r) + if error.None? then multiset{page.value} else multiset{}
  {
    assert InHand(r) == [] && InHand(s) == if error.None? then [page.value] else [];
  }

  lemma HeldStep(c: Config, r: State, l: Label, s: State)
    requires Step(c, r, l) == Some(s) && !s.panicked
    ensures Held(s) == Held(r) + if l.FetchReturns? && l.error.None? then multiset{l.page.value} else multiset{}
  {
    match l {
      case Launch => LaunchHolds(r, s);
      case SaveReturns(k) => SaveHolds(r, k, s);
      case FetchReturns(page, error) => AnswerHolds(r, page, error, s);
      case _ => OtherHolds(c, r, l, s);
    }
  }

  lemma OtherHolds(c: Config, r: State, l: Label, s: State)
    requires !l.Launch? && !l.SaveReturns? && !l.FetchReturns? && Step(c, r, l) == Some(s) && !s.panicked
    ensures s.saved == r.saved && s.saving == r.saving && InHand(s) == InHand(r)
  {
  }

  lemma OneTaken<T>(xs: seq<T>, k: nat)
    requires k < |xs|
    ensures multiset(xs) == multiset(xs[..k] + xs[k + 1..]) + multiset{xs[k]}
  {
    assert xs == xs[..k] + [xs[k]] + xs[k + 1..];
  }

  lemma {:induction false} HeldIsAnswered(c: Config, run: seq<Label>, s: State)
    requires Reaches(c, run, s) && !s.panicked
    ensures Held(s) == multiset(Successes(FetchAnswers(run)))
    decreases |run|
  {
    if run != [] {
      var init, l := run[..|run| - 1], run[|run| - 1];
      var r :| Reaches(c, init, r) && Step(c, r, l) == Some(s);
      HeldIsAnswered(c, init, r);
      HeldStep(c, r, l, s);
      SuccessesGrow(FetchAnswers(init), l);
    }
  }

  lemma SuccessesGrow(answers: seq<(Option<Page>, Option<string>)>, l: Label)
    requires l.FetchReturns? ==> l.page.Some?
    ensures
      var after := answers + if l.FetchReturns? then [(l.page, l.error)] else [];
      multiset(Successes(after)) ==
      multiset(Successes(answers)) + if l.FetchReturns? && l.error.None? then multiset{l.page.value} else multiset{}
  {
    if l.FetchReturns? {
      assert (answers + [(l.page, l.error)])[..|answers|] == answers;
    } else {
      assert answers + [] == answers;
    }
  }

  /** A finished batch has saved every page answered without an error, each as often as it was answered, and no other. */
  lemma BatchSavesEverySuccess(c: Config, run: seq<Label>, s: State)
    requires Reaches(c, run, s) && Final(s)
    ensures multiset(s.saved) == multiset(Successes(FetchAnswers(run)))
  {
    HeldIsAnswered(c, run, s);
  }
}
