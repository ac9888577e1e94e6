/** Saves and fetches interleaved statement by statement: neither runs in a transaction. There are no deletions, clears
    or maintenance here. */
module SaveInterleaving {
  import opened Wrappers
  import opened WebPages
  import opened UrlStore

  /** The values a save computes before its first statement. */
  datatype Entry = Entry(canonical: Key, requested: Key, row: Row)

  function EntryOf(p: SavablePage, at: Time): Entry {
    Entry(p.canonicalURL.value.Key(), p.requestedURL.value.Key(), StoredRow(p, at))
  }

  function PutRow(t: Tables, e: Entry): Tables {
    t.(urls := t.urls[e.canonical := e.row])
  }

  function PutMapping(t: Tables, e: Entry): Tables {
    t.(idMap := t.idMap[e.requested := e.canonical])
  }

  function Effect(t: Tables, e: Entry, fault: Fault): Tables {
    match fault
    case FirstFails => t
    case SecondFails => PutRow(t, e)
    case NoFault => PutMapping(PutRow(t, e), e)
  }

  /** Run alone, the two statements of a save do what the store's Save does. */
  lemma SavedIsEffect(t: Tables, p: SavablePage, at: Time, fault: Fault)
    ensures Saved(t, p, at, fault) == Effect(t, EntryOf(p, at), fault)
  {
  }

  datatype SaverPc = AtUrls | AtMap | Finished(fault: Fault)

  datatype FetcherPc = AtLookup | AtRead(key: Key, mapped: bool) | Returned(row: Option<Row>, mapped: bool) | GaveUp

  datatype Thread =
    | Saver(entry: Entry, saving: SaverPc)
    | Fetcher(requested: Key, fetching: FetcherPc)

  datatype State = State(tables: Tables, threads: seq<Thread>)

  /** One SQL statement: thread `thread` issues its next one, which takes effect only if `ok`. */
  datatype Move = Move(thread: nat, ok: bool)

  ghost predicate Enabled(s: State, m: Move) {
    && m.thread < |s.threads|
    && match s.threads[m.thread]
       case Saver(_, pc) => !pc.Finished?
       case Fetcher(_, pc) => pc.AtLookup? || pc.AtRead?
  }

  function SaverStep(t: Tables, e: Entry, pc: SaverPc, ok: bool): (Tables, SaverPc)
    requires !pc.Finished?
  {
    match pc
    case AtUrls => if ok then (PutRow(t, e), AtMap) else (t, Finished(FirstFails))
    case AtMap => if ok then (PutMapping(t, e), Finished(NoFault)) else (t, Finished(SecondFails))
  }

  function FetcherStep(t: Tables, requested: Key, pc: FetcherPc, ok: bool): FetcherPc
    requires pc.AtLookup? || pc.AtRead?
  {
    if !ok then GaveUp
    else match pc
      case AtLookup => AtRead(Resolve(t, requested), requested in t.idMap)
      case AtRead(key, mapped) => Returned(RowAt(t, key), mapped)
  }

  ghost function Step(s: State, m: Move): State
    requires Enabled(s, m)
  {
    match s.threads[m.thread]
    case Saver(e, pc) =>
      var (t, pc') := SaverStep(s.tables, e, pc, m.ok);
      State(t, s.threads[m.thread := Saver(e, pc')])
    case Fetcher(requested, pc) =>
      s.(threads := s.threads[m.thread := Fetcher(requested, FetcherStep(s.tables, requested, pc, m.ok))])
  }

  /** `run` is a sequence of moves that leads from `s` to `s'`. */
  ghost predicate Leads(s: State, run: seq<Move>, s': State)
    decreases |run|
  {
    if run == [] then s' == s
    else Enabled(s, run[0]) && Leads(Step(s, run[0]), run[1..], s')
  }

  // ---- Mapped keys always have a row ----

  ghost predicate TargetsStored(t: Tables) {
    forall r | r in t.idMap :: t.idMap[r] in t.urls
  }

  ghost predicate ThreadInvariant(t: Tables, thread: Thread) {
    match thread
    case Saver(e, pc) => pc == AtMap ==> e.canonical in t.urls
    case Fetcher(_, AtRead(key, mapped)) => mapped ==> key in t.urls
    case Fetcher(_, Returned(row, mapped)) => mapped ==> row.Some?
    case _ => true
  }

  ghost predicate Invariant(s: State) {
    TargetsStored(s.tables) && forall i | 0 <= i < |s.threads| :: ThreadInvariant(s.tables, s.threads[i])
  }

  lemma StepKeepsInvariant(s: State, m: Move)
    requires Invariant(s) && Enabled(s, m)
    ensures Invariant(Step(s, m))
  {
    var s' := Step(s, m);
    assert ThreadInvariant(s.tables, s.threads[m.thread]);
    assert s.tables.urls.Keys <= s'.tables.urls.Keys;
    forall i | 0 <= i < |s'.threads| ensures ThreadInvariant(s'.tables, s'.threads[i]) {
      if i != m.thread {
        assert ThreadInvariant(s.tables, s.threads[i]);
      }
    }
  }

  lemma {:induction false} RunKeepsInvariant(s: State, run: seq<Move>, s': State)
    requires Invariant(s) && Leads(s, run, s')
    ensures Invariant(s')
    decreases |run|
  {
    if run != [] {
      StepKeepsInvariant(s, run[0]);
      RunKeepsInvariant(Step(s, run[0]), run[1..], s');
    }
  }

  ghost predicate AtStart(thread: Thread) {
    match thread
    case Saver(_, pc) => pc == AtUrls
    case Fetcher(_, pc) => pc == AtLookup
  }

  /** From tables in which every mapping has its page, any interleaving of any number of saves and fetches, with any
      statements failing, keeps it so at every step, and a fetch whose lookup hit finds a row. */
  lemma MappedFetchFindsRow(s: State, run: seq<Move>, s': State)
    requires TargetsStored(s.tables) && (forall i | 0 <= i < |s.threads| :: AtStart(s.threads[i]))
    requires Leads(s, run, s')
    ensures TargetsStored(s'.tables)
    ensures forall i | 0 <= i < |s'.threads| && s'.threads[i].Fetcher? && s'.threads[i].fetching.Returned? ::
              s'.threads[i].fetching.mapped ==> s'.threads[i].fetching.row.Some?
  {
    RunKeepsInvariant(s, run, s');
    forall i | 0 <= i < |s'.threads| && s'.threads[i].Fetcher? && s'.threads[i].fetching.Returned?
      ensures s'.threads[i].fetching.mapped ==> s'.threads[i].fetching.row.Some?
    {
      assert ThreadInvariant(s'.tables, s'.threads[i]);
    }
  }
}
