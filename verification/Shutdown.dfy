/** The whole system at shutdown: statement lookups, background saves, the close listeners that wait for the saves, and
    any number of calls of Close, interleaved step by step over one handle and its mutex. */
module Shutdown {
  import opened Wrappers
  import opened Handles
  import opened Ordering

  /** Where a call of Statement stands. */
  datatype CallPc =
    | FastRead
    | WantLock
    | Recheck
    | Generate
    | Storing(stmt: Stmt)
    | Unlocking(result: Option<Stmt>)
    | Answered(result: Option<Stmt>)

  /** The two statements of a save: the row and the mapping. */
  datatype Stage = First | Second

  /** What a save has written. */
  datatype Written = Nothing | RowOnly | Both

  datatype SaverPc =
    | Starting
    | Calling(stage: Stage, call: CallPc)
    | Executing(stage: Stage)
    | Finishing(written: Written)
    | Gone(written: Written)

  /** The two statements with which a fetch asks the storage: the mapping and the page. */
  datatype Query = ForId | ForPage

  /** A fetch asks the storage; if that has nothing it retrieves the page, and if that succeeds it becomes a save. */
  datatype FetcherPc = Asking(query: Query, call: CallPc) | Reading(query: Query) | Retrieving | Ended

  datatype CloserPc = Checking | WantMutex | Rechecking | Active | Releasing | Returned

  /** A thread: a lookup by some client; a fetch, on its own by the fetchers of a group or for one URL of a batch; the
      background save that a successful fetch turns into, counted in its wait group unless it comes from a batch; or a
      call of Close, by hand or by context cancellation. `early` says that the save was counted before the wait of its
      group returned. */
  datatype Thread =
    | Lookup(key: StmtKey, call: CallPc)
    | Fetcher(group: Option<nat>, fetching: FetcherPc)
    | Saver(group: Option<nat>, early: bool, saving: SaverPc)
    | Closer(closing: CloserPc)

  /** How far the one call of Close that got through has come. */
  datatype Phase =
    | NotClosing
    | Stopping
    | ClosingQueue
    | Draining
    | Running(listener: Listener)
    | Waiting(group: nat)
    | Waited(group: nat)
    | ClosingStmts(todo: set<StmtKey>)
    | Clearing
    | ClosingDb
    | Marking
    | Closed

  /** A storage-backed fetcher and its clones: they share one wait group. */
  datatype Group = Group(pending: int, closed: bool)

  datatype State = State(
    h: Handle,
    mutex: Option<nat>,
    phase: Phase,
    threads: seq<Thread>,
    groups: map<nat, Group>,
    // history: groups whose wait has returned, statements generated and statements handed out
    waited: set<nat>,
    generated: seq<(StmtKey, Stmt)>,
    returned: seq<(StmtKey, Stmt)>)

  const INITIAL := State(OPENED, None, NotClosing, [], map[], {}, [], [])

  datatype Label =
    | CallMove(thread: nat, generated: Option<Stmt>)   // `generated` is what a generator call would return
    | FetcherMove(thread: nat, ok: bool)               // `ok`: the query runs, finds no page; the page is retrieved
    | SaverMove(thread: nat, ok: bool)
    | CloserMove(thread: nat, key: StmtKey)            // `key` is the statement closed next, in any order
    | StartLookup(key: StmtKey)
    | StartFetch(counted: Option<nat>)               // by the fetchers of a group, or for a URL of a batch
    | StartClose
    | NewFetcher(group: nat)                           // registers its wait; the registration may be refused
    | AddListener(id: nat)

  // ---- Steps ----

  function StageKey(stage: Stage): StmtKey {
    if stage == First then SaveStmt else SaveIdStmt
  }

  function QueryKey(query: Query): StmtKey {
    if query == ForId then LookupIdStmt else FetchOneStmt
  }

  function CallOf(t: Thread): Option<(StmtKey, CallPc)> {
    match t
    case Lookup(key, call) => Some((key, call))
    case Fetcher(_, Asking(query, call)) => Some((QueryKey(query), call))
    case Saver(_, _, Calling(stage, call)) => Some((StageKey(stage), call))
    case _ => None
  }

  function WithCall(t: Thread, call: CallPc): Thread
    requires CallOf(t).Some?
  {
    match t
    case Lookup(key, _) => Lookup(key, call)
    case Fetcher(group, fetching) => Fetcher(group, Asking(fetching.query, call))
    case Saver(group, early, saving) => Saver(group, early, Calling(saving.stage, call))
  }

  function Moved(s: State, tid: nat, t: Thread): State
    requires tid < |s.threads|
  {
    s.(threads := s.threads[tid := t])
  }

  /** A thread is about to call a generator and there is no database: preparing a statement dereferences nil, which ends
      the process. */
  predicate AtNilDatabase(s: State, tid: nat) {
    tid < |s.threads| && CallOf(s.threads[tid]).Some? && CallOf(s.threads[tid]).value.1.Generate? && !s.h.open
  }

  /** One step of Statement: fast read, lock, re-check, generate, store, unlock. */
  function CallStep(s: State, tid: nat, generated: Option<Stmt>): Option<State> {
    if tid >= |s.threads| || CallOf(s.threads[tid]).None? || AtNilDatabase(s, tid) then None
    else
      var t := s.threads[tid];
      var (key, pc) := CallOf(t).value;
      match pc
      case FastRead =>
        if key in s.h.stmts then
          Some(Moved(s, tid, WithCall(t, Answered(Some(s.h.stmts[key])))).(
               returned := s.returned + [(key, s.h.stmts[key])]))
        else Some(Moved(s, tid, WithCall(t, WantLock)))
      case WantLock => if s.mutex.None? then Some(Moved(s, tid, WithCall(t, Recheck)).(mutex := Some(tid))) else None
      case Recheck =>
        if key in s.h.stmts then Some(Moved(s, tid, WithCall(t, Unlocking(Some(s.h.stmts[key])))))
        else Some(Moved(s, tid, WithCall(t, Generate)))
      case Generate =>
        if generated.None? then Some(Moved(s, tid, WithCall(t, Unlocking(None))))
        else
          Some(Moved(s, tid, WithCall(t, Storing(generated.value))).(
               generated := s.generated + [(key, generated.value)]))
      case Storing(stmt) => Some(Moved(s, tid, WithCall(t, Unlocking(Some(stmt)))).(h := Stored(s.h, key, stmt)))
      case Unlocking(result) =>
        Some(Moved(s, tid, WithCall(t, Answered(result))).(
             mutex := None, returned := s.returned + if result.Some? then [(key, result.value)] else []))
      case Answered(_) => None
  }

  function SaverNext(pc: SaverPc, ok: bool): Option<SaverPc> {
    match pc
    case Starting => Some(Calling(First, FastRead))
    case Calling(stage, Answered(result)) => Some(if result.Some? then Executing(stage) else Finishing(Before(stage)))
    case Executing(stage) =>
      Some(if !ok then Finishing(Before(stage))
           else if stage == First then Calling(Second, FastRead) else Finishing(Both))
    case Finishing(written) => Some(Gone(written))
    case _ => None
  }

  /** What is written before a stage. */
  function Before(stage: Stage): Written {
    if stage == First then Nothing else RowOnly
  }

  /** One step of a save outside Statement. Its last step takes it off its wait group. */
  function SaverStep(s: State, tid: nat, ok: bool): Option<State> {
    if tid >= |s.threads| || !s.threads[tid].Saver? || SaverNext(s.threads[tid].saving, ok).None? then None
    else
      var t := s.threads[tid];
      var next := SaverNext(t.saving, ok).value;
      var s' := Moved(s, tid, t.(saving := next));
      if next.Gone? && t.group.Some? && t.group.value in s.groups then
        var g := s.groups[t.group.value];
        Some(s'.(groups := s.groups[t.group.value := g.(pending := g.pending - 1)]))
      else Some(s')
  }

  function FetcherNext(pc: FetcherPc, ok: bool): Option<FetcherPc> {
    match pc
    case Asking(query, Answered(result)) => Some(if result.Some? then Reading(query) else Ended)
    case Reading(query) => Some(if !ok then Ended else if query == ForId then Asking(ForPage, FastRead) else Retrieving)
    case Retrieving => if ok then None else Some(Ended)
    case _ => None
  }

  function OneMore(g: Group): Group {
    g.(pending := g.pending + 1)
  }

  /** A save is counted and its goroutine started. */
  function Launched(s: State, tid: nat, group: Option<nat>): Option<State>
    requires tid < |s.threads|
  {
    match group
    case None => Some(Moved(s, tid, Saver(None, false, Starting)))
    case Some(g) =>
      if g in s.groups then
        Some(Moved(s, tid, Saver(group, g !in s.waited, Starting)).(
             groups := s.groups[g := OneMore(s.groups[g])]))
      else None
  }

  /** One step of a fetch outside Statement. */
  function FetcherStep(s: State, tid: nat, ok: bool): Option<State> {
    if tid >= |s.threads| || !s.threads[tid].Fetcher? then None
    else
      var t := s.threads[tid];
      var next := FetcherNext(t.fetching, ok);
      if next.Some? then Some(Moved(s, tid, Fetcher(t.group, next.value)))
      else if t.fetching.Retrieving? then Launched(s, tid, t.group)
      else None
  }

  /** What the active Close does with the maintenance jobs and the listeners. It holds the mutex all along. */
  function ListenStep(s: State): Option<State> {
    match s.phase
    case Stopping => Some(s.(phase := ClosingQueue, h := MaintenanceStopped(s.h)))
    case ClosingQueue => Some(s.(phase := Draining, h := QueueClosed(s.h)))
    case Draining =>
      if s.h.listeners == [] then Some(s.(phase := ClosingStmts(s.h.stmts.Keys)))
      else Some(s.(phase := Running(s.h.listeners[0]), h := Popped(s.h)))
    case Running(Callback(id)) => Some(s.(phase := Draining, h := Ran(s.h, Callback(id))))
    case Running(WaitFor(g)) =>
      if g in s.groups && s.groups[g].closed then Some(s.(phase := Draining, h := Ran(s.h, WaitFor(g))))
      else Some(s.(phase := Waiting(g)))
    case Waiting(g) =>
      if g in s.groups && s.groups[g].pending == 0 then Some(s.(phase := Waited(g), waited := s.waited + {g}))
      else None
    case Waited(g) =>
      var groups := if g in s.groups then s.groups[g := s.groups[g].(closed := true)] else s.groups;
      Some(s.(phase := Draining, groups := groups, h := Ran(s.h, WaitFor(g))))
    case _ => None
  }

  /** What it does with the statements and the database. */
  function TeardownStep(s: State, key: StmtKey): Option<State> {
    match s.phase
    case ClosingStmts(todo) =>
      if todo == {} then Some(s.(phase := Clearing))
      else if key in todo then Some(s.(phase := ClosingStmts(todo - {key}), h := StatementClosed(s.h, key)))
      else None
    case Clearing => Some(s.(phase := ClosingDb, h := Cleared(s.h)))
    case ClosingDb => Some(s.(phase := Marking, h := DatabaseShut(s.h)))
    case _ => None
  }

  predicate QueueDrained(phase: Phase) {
    phase.ClosingStmts? || phase.Clearing? || phase.ClosingDb? || phase.Marking? || phase.Closed?
  }

  function ActiveStep(s: State, key: StmtKey): Option<State> {
    if QueueDrained(s.phase) then TeardownStep(s, key) else ListenStep(s)
  }

  function CloserStep(s: State, tid: nat, key: StmtKey): Option<State> {
    if tid >= |s.threads| || !s.threads[tid].Closer? then None
    else
      match s.threads[tid].closing
      case Checking => Some(Moved(s, tid, Closer(if s.h.closed || !s.h.open then Returned else WantMutex)))
      case WantMutex => if s.mutex.None? then Some(Moved(s, tid, Closer(Rechecking)).(mutex := Some(tid))) else None
      case Rechecking =>
        if s.h.closed || !s.h.open then Some(Moved(s, tid, Closer(Releasing)))
        else Some(Moved(s, tid, Closer(Active)).(phase := Stopping))
      case Active =>
        if s.phase == Marking then Some(Moved(s, tid, Closer(Releasing)).(phase := Closed, h := MarkedClosed(s.h)))
        else ActiveStep(s, key)
      case Releasing => Some(Moved(s, tid, Closer(Returned)).(mutex := None))
      case Returned => None
  }

  /** Close has begun and not yet marked the handle closed. */
  predicate Busy(phase: Phase) {
    !phase.NotClosing? && !phase.Closed?
  }

  /** New threads and registrations. A listener is not added while Close is at work. */
  function SpawnStep(s: State, l: Label): Option<State> {
    match l
    case StartLookup(key) => Some(s.(threads := s.threads + [Lookup(key, FastRead)]))
    case StartFetch(group) =>
      if group.Some? && group.value !in s.groups then None
      else Some(s.(threads := s.threads + [Fetcher(group, Asking(ForId, FastRead))]))
    case StartClose => Some(s.(threads := s.threads + [Closer(Checking)]))
    case NewFetcher(g) =>
      if g in s.groups || Busy(s.phase) then None
      else Some(s.(groups := s.groups[g := Group(0, false)], h := Registered(s.h, WaitFor(g))))
    case AddListener(id) => if Busy(s.phase) then None else Some(s.(h := Registered(s.h, Callback(id))))
    case _ => None
  }

  /** A label that ends the process: there is no state after it. */
  predicate Crashes(s: State, l: Label) {
    l.CallMove? && AtNilDatabase(s, l.thread)
  }

  function Step(s: State, l: Label): Option<State> {
    match l
    case CallMove(tid, generated) => CallStep(s, tid, generated)
    case FetcherMove(tid, ok) => FetcherStep(s, tid, ok)
    case SaverMove(tid, ok) => SaverStep(s, tid, ok)
    case CloserMove(tid, key) => CloserStep(s, tid, key)
    case _ => SpawnStep(s, l)
  }

  /** `run` leads from `s` to `s'`. */
  ghost predicate Leads(s: State, run: seq<Label>, s': State)
    decreases |run|
  {
    if run == [] then s' == s
    else Step(s, run[0]).Some? && Leads(Step(s, run[0]).value, run[1..], s')
  }

  // ---- Sums over threads ----

  function Sum(threads: seq<Thread>, weight: Thread -> nat): nat {
    if threads == [] then 0 else Sum(threads[..|threads| - 1], weight) + weight(threads[|threads| - 1])
  }

  lemma {:induction false} SumUpdate(threads: seq<Thread>, i: nat, t: Thread, weight: Thread -> nat)
    requires i < |threads|
    ensures Sum(threads[i := t], weight) + weight(threads[i]) == Sum(threads, weight) + weight(t)
  {
    var n := |threads| - 1;
    if i < n {
      SumUpdate(threads[..n], i, t, weight);
      assert threads[i := t][..n] == threads[..n][i := t];
    } else {
      assert threads[i := t][..n] == threads[..n];
    }
  }

  lemma SumAppend(threads: seq<Thread>, t: Thread, weight: Thread -> nat)
    ensures Sum(threads + [t], weight) == Sum(threads, weight) + weight(t)
  {
    assert (threads + [t])[..|threads|] == threads;
  }

  lemma {:induction false} SumCovers(threads: seq<Thread>, i: nat, weight: Thread -> nat)
    requires i < |threads|
    ensures Sum(threads, weight) >= weight(threads[i])
  {
    var n := |threads| - 1;
    if i < n {
      SumCovers(threads[..n], i, weight);
    }
  }

  lemma {:induction false} SumZero(threads: seq<Thread>, weight: Thread -> nat)
    requires forall i | 0 <= i < |threads| :: weight(threads[i]) == 0
    ensures Sum(threads, weight) == 0
  {
    if threads != [] {
      SumZero(threads[..|threads| - 1], weight);
    }
  }

  /** A step that is neither of a call nor of a Close leaves the statements alone, and every thread but one. */
  lemma AsideStep(s: State, l: Label, s': State)
    requires !l.CallMove? && !l.CloserMove? && Step(s, l) == Some(s')
    ensures s'.phase == s.phase && s'.mutex == s.mutex && s'.generated == s.generated && s'.returned == s.returned
    ensures s'.h.stmts == s.h.stmts && s'.h.closedKeys == s.h.closedKeys && (s.h.closed ==> s'.h == s.h)
    ensures |s.threads| <= |s'.threads|
    ensures forall i | 0 <= i < |s.threads| :: s'.threads[i] == s.threads[i] || !Holds(s.threads[i])
  {
  }

  // ---- The mutex ----

  predicate Holds(t: Thread) {
    match t
    case Closer(pc) => pc.Rechecking? || pc.Active? || pc.Releasing?
    case _ =>
      match CallOf(t)
      case None => false
      case Some((_, pc)) => pc.Recheck? || pc.Generate? || pc.Storing? || pc.Unlocking?
  }

  /** The mutex is held by exactly the thread that is inside its critical section, and a Close is at work exactly while
      an active closer holds it. */
  ghost predicate MutexInv(s: State) {
    && (s.mutex.Some? ==> s.mutex.value < |s.threads|)
    && (forall i | 0 <= i < |s.threads| :: Holds(s.threads[i]) <==> s.mutex == Some(i))
    && (forall i | 0 <= i < |s.threads| :: s.threads[i] == Closer(Active) ==> Busy(s.phase))
    && (Busy(s.phase) ==> s.mutex.Some? && s.threads[s.mutex.value] == Closer(Active))
  }

  /** Where a call of Statement may go next. */
  ghost predicate CallNext(h: Handle, key: StmtKey, pc: CallPc, pc': CallPc) {
    match pc
    case FastRead => pc' == if key in h.stmts then Answered(Some(h.stmts[key])) else WantLock
    case WantLock => pc' == Recheck
    case Recheck => pc' == if key in h.stmts then Unlocking(Some(h.stmts[key])) else Generate
    case Generate => pc' == Unlocking(None) || (h.open && pc'.Storing?)
    case Storing(stmt) => pc' == Unlocking(Some(stmt))
    case Unlocking(result) => pc' == Answered(result)
    case Answered(_) => false
  }

  /** All that one step of a call changes. */
  ghost predicate CallEffect(s: State, tid: nat, key: StmtKey, pc: CallPc, pc': CallPc, s': State) {
    && tid < |s.threads| && CallOf(s.threads[tid]) == Some((key, pc))
    && s'.threads == s.threads[tid := WithCall(s.threads[tid], pc')]
    && s'.phase == s.phase && s'.groups == s.groups && s'.waited == s.waited
    && CallNext(s.h, key, pc, pc')
    && s'.h == (if pc.Storing? then Stored(s.h, key, pc.stmt) else s.h)
    && (pc.WantLock? ==> s.mutex.None?)
    && s'.mutex == (if pc.WantLock? then Some(tid) else if pc.Unlocking? then None else s.mutex)
    && s'.generated == s.generated + (if pc'.Storing? then [(key, pc'.stmt)] else [])
    && s'.returned == s.returned + (if pc'.Answered? && pc'.result.Some? then [(key, pc'.result.value)] else [])
  }

  lemma CallStepEffect(s: State, tid: nat, generated: Option<Stmt>, s': State)
    returns (key: StmtKey, pc: CallPc, pc': CallPc)
    requires CallStep(s, tid, generated) == Some(s')
    ensures CallEffect(s, tid, key, pc, pc', s')
  {
    key, pc := CallOf(s.threads[tid]).value.0, CallOf(s.threads[tid]).value.1;
    match pc {
      case FastRead => pc' := if key in s.h.stmts then Answered(Some(s.h.stmts[key])) else WantLock;
      case WantLock => pc' := Recheck;
      case Recheck => pc' := if key in s.h.stmts then Unlocking(Some(s.h.stmts[key])) else Generate;
      case Generate => pc' := if generated.None? then Unlocking(None) else Storing(generated.value);
      case Storing(stmt) => pc' := Unlocking(Some(stmt));
      case Unlocking(result) => pc' := Answered(result);
    }
  }

  /** All that one step of a fetch changes: it goes on, or turns into a save that is counted. */
  ghost predicate FetcherEffect(s: State, tid: nat, t: Thread, s': State) {
    && tid < |s.threads| && s.threads[tid].Fetcher? && s'.threads == s.threads[tid := t]
    && s'.h == s.h && s'.mutex == s.mutex && s'.phase == s.phase && s'.waited == s.waited
    && s'.generated == s.generated && s'.returned == s.returned
    && (if t.Saver? && t.group.Some? then
          && t == Saver(s.threads[tid].group, t.group.value !in s.waited, Starting) && t.group.value in s.groups
          && s'.groups == s.groups[t.group.value := OneMore(s.groups[t.group.value])]
        else
          && s'.groups == s.groups
          && (t == Saver(None, false, Starting) || (t.Fetcher? && t.group == s.threads[tid].group)))
    && !Holds(s.threads[tid]) && !Holds(t)
    && (CallOf(t).Some? ==> CallOf(t).value.1 == FastRead)
  }

  lemma FetcherStepEffect(s: State, tid: nat, ok: bool, s': State) returns (t: Thread)
    requires FetcherStep(s, tid, ok) == Some(s')
    ensures FetcherEffect(s, tid, t, s')
  {
    t := s'.threads[tid];
  }

  lemma MutexFetcher(s: State, tid: nat, t: Thread, s': State)
    requires MutexInv(s) && FetcherEffect(s, tid, t, s')
    ensures MutexInv(s')
  {
    assert forall i | 0 <= i < |s.threads| && i != tid :: s'.threads[i] == s.threads[i];
  }

  lemma MutexCall(s: State, tid: nat, key: StmtKey, pc: CallPc, pc': CallPc, s': State)
    requires MutexInv(s) && CallEffect(s, tid, key, pc, pc', s')
    ensures MutexInv(s')
  {
    assert Holds(s'.threads[tid]) <==> s'.mutex == Some(tid);
  }

  lemma MutexSaver(s: State, tid: nat, ok: bool, s': State)
    requires MutexInv(s) && SaverStep(s, tid, ok) == Some(s')
    ensures MutexInv(s')
  {
    assert s'.phase == s.phase && s'.mutex == s.mutex && |s'.threads| == |s.threads|;
    assert forall i | 0 <= i < |s.threads| && i != tid :: s'.threads[i] == s.threads[i];
    assert !Holds(s.threads[tid]) && !Holds(s'.threads[tid]);
  }

  lemma ActiveChangesPhase(s: State, key: StmtKey, s': State)
    requires ActiveStep(s, key) == Some(s')
    ensures s'.threads == s.threads && s'.mutex == s.mutex
    ensures Busy(s.phase) && Busy(s'.phase)
  {
  }

  lemma MutexCloser(s: State, tid: nat, key: StmtKey, s': State)
    requires MutexInv(s) && CloserStep(s, tid, key) == Some(s')
    ensures MutexInv(s')
  {
    if s.threads[tid].closing.Active? && s.phase != Marking {
      ActiveChangesPhase(s, key, s');
    } else {
      assert |s'.threads| == |s.threads|;
      assert forall i | 0 <= i < |s.threads| && i != tid :: s'.threads[i] == s.threads[i];
      assert Holds(s'.threads[tid]) <==> s'.mutex == Some(tid);
    }
  }

  lemma MutexSpawn(s: State, l: Label, s': State)
    requires MutexInv(s) && SpawnStep(s, l) == Some(s')
    ensures MutexInv(s')
  {
    assert s'.phase == s.phase && s'.mutex == s.mutex;
    assert forall i | |s.threads| <= i < |s'.threads| :: !Holds(s'.threads[i]);
  }

  lemma MutexStep(s: State, l: Label, s': State)
    requires MutexInv(s) && Step(s, l) == Some(s')
    ensures MutexInv(s')
  {
    match l {
      case CallMove(tid, generated) =>
        var key, pc, pc' := CallStepEffect(s, tid, generated, s');
        MutexCall(s, tid, key, pc, pc', s');
      case FetcherMove(tid, ok) =>
        var t := FetcherStepEffect(s, tid, ok, s');
        MutexFetcher(s, tid, t, s');
      case SaverMove(tid, ok) => MutexSaver(s, tid, ok, s');
      case CloserMove(tid, key) => MutexCloser(s, tid, key, s');
      case _ => MutexSpawn(s, l, s');
    }
  }

  // ---- The life of the handle ----

  predicate Emptied(phase: Phase) {
    phase.ClosingDb? || phase.Marking? || phase.Closed?
  }

  predicate Shut(phase: Phase) {
    phase.Marking? || phase.Closed?
  }

  /** The listener being run. */
  function Current(phase: Phase): seq<Listener> {
    match phase
    case Running(l) => [l]
    case Waiting(g) => [WaitFor(g)]
    case Waited(g) => [WaitFor(g)]
    case _ => []
  }

  /** What has been closed, and how often. */
  ghost predicate Counted(h: Handle, phase: Phase) {
    && h.doneCloses == (if phase.NotClosing? || phase.Stopping? then 0 else 1)
    && h.queueCloses == (if phase.NotClosing? || phase.Stopping? || phase.ClosingQueue? then 0 else 1)
    && h.dbCloses == (if Shut(phase) then 1 else 0)
    && h.open == !Shut(phase)
    && h.closed == phase.Closed?
  }

  /** What has become of the listeners and the statements. */
  ghost predicate Drained(h: Handle, phase: Phase) {
    && |h.listeners| <= LISTENER_CAPACITY
    && (QueueDrained(phase) ==> h.listeners == [])
    && (!QueueDrained(phase) ==> h.closedKeys == [])
    && (phase.NotClosing? || phase.Stopping? || phase.ClosingQueue? ==> h.ran == [])
    && (Emptied(phase) ==> h.stmts == map[])
    && (phase.ClosingStmts? ==> phase.todo <= h.stmts.Keys)
  }

  /** Every accepted listener has run, is running or is queued, in the order of registration. */
  ghost predicate Ordered(h: Handle, phase: Phase) {
    h.accepted == h.ran + Current(phase) + h.listeners
  }

  ghost predicate LifeInv(h: Handle, phase: Phase) {
    Counted(h, phase) && Drained(h, phase) && Ordered(h, phase)
  }

  lemma ListenCounted(s: State, s': State)
    requires Counted(s.h, s.phase) && ListenStep(s) == Some(s')
    ensures Counted(s'.h, s'.phase)
  {
  }

  lemma ActiveCounted(s: State, key: StmtKey, s': State)
    requires Counted(s.h, s.phase) && ActiveStep(s, key) == Some(s')
    ensures Counted(s'.h, s'.phase)
  {
    if !QueueDrained(s.phase) {
      ListenCounted(s, s');
    }
  }

  lemma ListenDrained(s: State, s': State)
    requires Drained(s.h, s.phase) && ListenStep(s) == Some(s')
    ensures Drained(s'.h, s'.phase)
  {
    if s.phase.Draining? {
      assert s.h.listeners != [] ==> s'.h == Popped(s.h);
    }
  }

  lemma ActiveDrained(s: State, key: StmtKey, s': State)
    requires Drained(s.h, s.phase) && ActiveStep(s, key) == Some(s')
    ensures Drained(s'.h, s'.phase)
  {
    if !QueueDrained(s.phase) {
      ListenDrained(s, s');
    }
  }

  /** What an active Close does to the listeners: take the next, finish the current, or nothing. */
  ghost predicate ListenersMove(ran: seq<Listener>, current: seq<Listener>, queue: seq<Listener>,
                                ran': seq<Listener>, current': seq<Listener>, queue': seq<Listener>, take: bool) {
    if take then queue != [] && queue' == queue[1..] && ran' == ran && current == [] && current' == [queue[0]]
    else queue' == queue && if current' == [] then ran' == ran + current else ran' == ran && current' == current
  }

  lemma ActiveListeners(s: State, key: StmtKey, s': State)
    requires ActiveStep(s, key) == Some(s')
    ensures s'.h.accepted == s.h.accepted
    ensures ListenersMove(s.h.ran, Current(s.phase), s.h.listeners, s'.h.ran, Current(s'.phase), s'.h.listeners,
                          s.phase.Draining? && s.h.listeners != [])
  {
    match s.phase {
      case Draining =>
      case Running(l) =>
      case Waiting(g) =>
      case Waited(g) =>
      case _ =>
    }
  }

  lemma ListenersMoveKeepsOrder(ran: seq<Listener>, current: seq<Listener>, queue: seq<Listener>,
                                ran': seq<Listener>, current': seq<Listener>, queue': seq<Listener>, take: bool)
    requires ListenersMove(ran, current, queue, ran', current', queue', take)
    ensures ran + current + queue == ran' + current' + queue'
  {
  }

  lemma ActiveOrdered(s: State, key: StmtKey, s': State)
    requires Ordered(s.h, s.phase) && ActiveStep(s, key) == Some(s')
    ensures Ordered(s'.h, s'.phase)
  {
    ActiveListeners(s, key, s');
    ListenersMoveKeepsOrder(s.h.ran, Current(s.phase), s.h.listeners, s'.h.ran, Current(s'.phase), s'.h.listeners,
                            s.phase.Draining? && s.h.listeners != []);
  }

  lemma CloserLife(s: State, tid: nat, key: StmtKey, s': State)
    requires MutexInv(s) && LifeInv(s.h, s.phase) && CloserStep(s, tid, key) == Some(s')
    ensures LifeInv(s'.h, s'.phase)
  {
    if s.threads[tid].closing.Active? && s.phase != Marking {
      ActiveCounted(s, key, s');
      ActiveDrained(s, key, s');
      ActiveOrdered(s, key, s');
    } else if s.threads[tid].closing.Rechecking? {
      assert s.mutex == Some(tid) && !Busy(s.phase);
    }
  }

  /** A thread about to store a statement got it from an open database and holds the mutex, so no Close is at work. */
  ghost predicate StoringBeforeClose(s: State) {
    forall i | 0 <= i < |s.threads| && CallOf(s.threads[i]).Some? && CallOf(s.threads[i]).value.1.Storing? ::
      s.phase.NotClosing?
  }

  lemma CallLife(s: State, tid: nat, key: StmtKey, pc: CallPc, pc': CallPc, s': State)
    requires LifeInv(s.h, s.phase) && StoringBeforeClose(s) && CallEffect(s, tid, key, pc, pc', s')
    ensures LifeInv(s'.h, s'.phase)
  {
    assert pc.Storing? ==> s.phase.NotClosing?;
  }

  lemma LifeStep(s: State, l: Label, s': State)
    requires MutexInv(s) && LifeInv(s.h, s.phase) && StoringBeforeClose(s) && Step(s, l) == Some(s')
    ensures LifeInv(s'.h, s'.phase)
  {
    match l {
      case CallMove(tid, generated) =>
        var key, pc, pc' := CallStepEffect(s, tid, generated, s');
        CallLife(s, tid, key, pc, pc', s');
      case FetcherMove(tid, ok) =>
        var t := FetcherStepEffect(s, tid, ok, s');
      case SaverMove(tid, ok) =>
        assert s'.h == s.h && s'.phase == s.phase;
      case CloserMove(tid, key) => CloserLife(s, tid, key, s');
      case _ =>
        assert s'.phase == s.phase;
    }
  }

  lemma StoringCall(s: State, tid: nat, key: StmtKey, pc: CallPc, pc': CallPc, s': State)
    requires MutexInv(s) && LifeInv(s.h, s.phase) && StoringBeforeClose(s) && CallEffect(s, tid, key, pc, pc', s')
    ensures StoringBeforeClose(s')
  {
    assert pc'.Storing? ==> Holds(s.threads[tid]) && !Busy(s.phase) && s.h.open;
  }

  lemma StoringFetcher(s: State, tid: nat, t: Thread, s': State)
    requires StoringBeforeClose(s) && FetcherEffect(s, tid, t, s')
    ensures StoringBeforeClose(s')
  {
    assert forall i | 0 <= i < |s.threads| && i != tid :: s'.threads[i] == s.threads[i];
  }

  lemma StoringStep(s: State, l: Label, s': State)
    requires MutexInv(s) && LifeInv(s.h, s.phase) && StoringBeforeClose(s) && Step(s, l) == Some(s')
    ensures StoringBeforeClose(s')
  {
    match l {
      case CallMove(tid, generated) =>
        var key, pc, pc' := CallStepEffect(s, tid, generated, s');
        StoringCall(s, tid, key, pc, pc', s');
      case FetcherMove(tid, ok) =>
        var t := FetcherStepEffect(s, tid, ok, s');
        StoringFetcher(s, tid, t, s');
      case SaverMove(tid, ok) =>
        assert forall i | 0 <= i < |s.threads| && i != tid :: s'.threads[i] == s.threads[i];
      case CloserMove(tid, key) =>
        StoringCloser(s, tid, key, s');
      case _ =>
        assert s'.phase == s.phase;
        assert forall i | 0 <= i < |s.threads| :: s'.threads[i] == s.threads[i];
    }
  }

  lemma StoringCloser(s: State, tid: nat, key: StmtKey, s': State)
    requires MutexInv(s) && LifeInv(s.h, s.phase) && StoringBeforeClose(s) && CloserStep(s, tid, key) == Some(s')
    ensures StoringBeforeClose(s')
  {
    if s.threads[tid].closing.Active? && s.phase != Marking {
      ActiveChangesPhase(s, key, s');
    } else {
      assert forall i | 0 <= i < |s.threads| && i != tid :: s'.threads[i] == s.threads[i];
    }
  }

  /** All that a call of Close changes by a step other than those of its work proper. */
  ghost predicate OutsideEffect(s: State, tid: nat, t: Thread, s': State) {
    && tid < |s.threads| && s.threads[tid].Closer? && t.Closer? && s'.threads == s.threads[tid := t]
    && s'.groups == s.groups && s'.waited == s.waited && s'.generated == s.generated && s'.returned == s.returned
    && s'.h == s.h.(closed := s'.phase.Closed?)
    && ((s.phase.NotClosing? && s'.phase.Stopping?) || (s.phase.Marking? && s'.phase.Closed?) || s'.phase == s.phase)
    && (s'.phase == s.phase ==> t.closing != Active)
  }

  lemma OutsideStep(s: State, tid: nat, key: StmtKey, s': State) returns (t: Thread)
    requires MutexInv(s) && Counted(s.h, s.phase) && CloserStep(s, tid, key) == Some(s')
    requires !s.threads[tid].closing.Active? || s.phase.Marking?
    ensures OutsideEffect(s, tid, t, s')
  {
    t := s'.threads[tid];
    if s.threads[tid].closing.Rechecking? {
      assert Holds(s.threads[tid]) && !Busy(s.phase);
    }
  }

  // ---- The statement cache ----

  ghost predicate DistinctKeys(pairs: seq<(StmtKey, Stmt)>) {
    forall i, j | 0 <= i < j < |pairs| :: pairs[i].0 != pairs[j].0
  }

  ghost predicate BeingStored(s: State, p: (StmtKey, Stmt)) {
    s.mutex.Some? && s.mutex.value < |s.threads| && CallOf(s.threads[s.mutex.value]) == Some((p.0, Storing(p.1)))
  }

  ghost predicate CallInv(s: State, t: Thread) {
    match CallOf(t)
    case Some((key, Generate)) => key !in s.h.stmts
    case Some((key, Storing(stmt))) => key !in s.h.stmts && (key, stmt) in s.generated
    case Some((key, Unlocking(Some(stmt)))) => (key, stmt) in s.generated
    case Some((key, Answered(Some(stmt)))) => (key, stmt) in s.generated
    case _ => true
  }

  /** Every cached or returned statement was generated, one per key; a generated statement is cached, about to be, or
      gone with the closed handle. */
  ghost predicate CacheInv(s: State) {
    && DistinctKeys(s.generated)
    && (forall k | k in s.h.stmts :: (k, s.h.stmts[k]) in s.generated)
    && (forall p | p in s.generated :: p.0 in s.h.stmts || BeingStored(s, p) || Emptied(s.phase))
    && (forall p | p in s.returned :: p in s.generated)
    && (forall i | 0 <= i < |s.threads| :: CallInv(s, s.threads[i]))
  }

  lemma GeneratedIsNew(s: State, tid: nat, key: StmtKey)
    requires MutexInv(s) && LifeInv(s.h, s.phase) && CacheInv(s) && s.h.open
    requires tid < |s.threads| && CallOf(s.threads[tid]) == Some((key, Generate))
    ensures forall p | p in s.generated :: p.0 != key
  {
    assert Holds(s.threads[tid]) && CallInv(s, s.threads[tid]);
    assert !Emptied(s.phase);
  }

  lemma CacheCallThreads(s: State, tid: nat, key: StmtKey, pc: CallPc, pc': CallPc, s': State)
    requires MutexInv(s) && CacheInv(s) && CallEffect(s, tid, key, pc, pc', s')
    ensures forall i | 0 <= i < |s'.threads| :: CallInv(s', s'.threads[i])
  {
    assert CallInv(s, s.threads[tid]);
    forall i | 0 <= i < |s'.threads| ensures CallInv(s', s'.threads[i]) {
      if i != tid {
        assert s'.threads[i] == s.threads[i] && CallInv(s, s.threads[i]);
        if pc.Storing? {
          assert Holds(s.threads[tid]) && !Holds(s.threads[i]);
        }
      }
    }
  }

  lemma CacheCallGenerated(s: State, tid: nat, key: StmtKey, pc: CallPc, pc': CallPc, s': State)
    requires MutexInv(s) && LifeInv(s.h, s.phase) && CacheInv(s) && CallEffect(s, tid, key, pc, pc', s')
    ensures DistinctKeys(s'.generated)
    ensures forall p | p in s'.generated :: p.0 in s'.h.stmts || BeingStored(s', p) || Emptied(s'.phase)
  {
    if pc'.Storing? {
      GeneratedIsNew(s, tid, key);
    }
    forall p | p in s'.generated ensures p.0 in s'.h.stmts || BeingStored(s', p) || Emptied(s'.phase) {
      if p in s.generated && BeingStored(s, p) {
        assert s.mutex == Some(tid) || Holds(s.threads[s.mutex.value]);
      }
    }
  }

  lemma CacheCall(s: State, tid: nat, key: StmtKey, pc: CallPc, pc': CallPc, s': State)
    requires MutexInv(s) && LifeInv(s.h, s.phase) && CacheInv(s) && CallEffect(s, tid, key, pc, pc', s')
    ensures CacheInv(s')
  {
    assert CallInv(s, s.threads[tid]);
    CacheCallThreads(s, tid, key, pc, pc', s');
    CacheCallGenerated(s, tid, key, pc, pc', s');
  }

  lemma CacheElsewhere(s: State, s': State)
    requires CacheInv(s)
    requires s'.generated == s.generated && s'.returned == s.returned
    requires s'.h.stmts == s.h.stmts || (s'.h.stmts == map[] && Emptied(s'.phase))
    requires Emptied(s.phase) ==> Emptied(s'.phase)
    requires forall p | BeingStored(s, p) :: BeingStored(s', p)
    requires forall i | 0 <= i < |s'.threads| :: CallInv(s', s'.threads[i])
    ensures CacheInv(s')
  {
  }

  lemma CacheFetcher(s: State, tid: nat, t: Thread, s': State)
    requires MutexInv(s) && CacheInv(s) && FetcherEffect(s, tid, t, s')
    ensures CacheInv(s')
  {
    forall i | 0 <= i < |s'.threads| ensures CallInv(s', s'.threads[i]) {
      if i != tid {
        assert CallInv(s, s.threads[i]);
      }
    }
    CacheElsewhere(s, s');
  }

  lemma CacheSaver(s: State, tid: nat, ok: bool, s': State)
    requires MutexInv(s) && CacheInv(s) && SaverStep(s, tid, ok) == Some(s')
    ensures CacheInv(s')
  {
    assert s'.h == s.h && s'.mutex == s.mutex && s'.phase == s.phase;
    forall i | 0 <= i < |s'.threads| ensures CallInv(s', s'.threads[i]) {
      if i != tid {
        assert CallInv(s, s.threads[i]);
      }
    }
    assert !Holds(s.threads[tid]);
    CacheElsewhere(s, s');
  }

  lemma ListenKeepsCache(s: State, s': State)
    requires ListenStep(s) == Some(s')
    ensures s'.generated == s.generated && s'.returned == s.returned && s'.h.stmts == s.h.stmts && !Emptied(s.phase)
  {
  }

  lemma TeardownKeepsCache(s: State, key: StmtKey, s': State)
    requires TeardownStep(s, key) == Some(s')
    ensures s'.generated == s.generated && s'.returned == s.returned
    ensures s'.h.stmts == s.h.stmts || (s'.h.stmts == map[] && Emptied(s'.phase))
    ensures Emptied(s.phase) ==> Emptied(s'.phase)
  {
  }

  lemma ActiveKeepsCache(s: State, key: StmtKey, s': State)
    requires ActiveStep(s, key) == Some(s')
    ensures s'.generated == s.generated && s'.returned == s.returned
    ensures s'.h.stmts == s.h.stmts || (s'.h.stmts == map[] && Emptied(s'.phase))
    ensures Emptied(s.phase) ==> Emptied(s'.phase)
  {
    if QueueDrained(s.phase) {
      TeardownKeepsCache(s, key, s');
    } else {
      ListenKeepsCache(s, s');
    }
  }

  lemma CacheActive(s: State, key: StmtKey, s': State)
    requires MutexInv(s) && CacheInv(s) && ActiveStep(s, key) == Some(s')
    ensures CacheInv(s')
  {
    ActiveKeepsCache(s, key, s');
    ActiveChangesPhase(s, key, s');
    forall i | 0 <= i < |s'.threads| ensures CallInv(s', s'.threads[i]) {
      assert CallInv(s, s.threads[i]);
    }
    CacheElsewhere(s, s');
  }

  lemma CacheOutside(s: State, tid: nat, t: Thread, s': State)
    requires CacheInv(s) && OutsideEffect(s, tid, t, s')
    requires s'.mutex == s.mutex || s.mutex == Some(tid) || s.mutex.None?
    ensures CacheInv(s')
  {
    forall i | 0 <= i < |s'.threads| ensures CallInv(s', s'.threads[i]) {
      assert i != tid ==> CallInv(s, s.threads[i]);
    }
    CacheElsewhere(s, s');
  }

  lemma CacheCloser(s: State, tid: nat, key: StmtKey, s': State)
    requires MutexInv(s) && LifeInv(s.h, s.phase) && CacheInv(s) && CloserStep(s, tid, key) == Some(s')
    ensures CacheInv(s')
  {
    if s.threads[tid].closing.Active? && s.phase != Marking {
      CacheActive(s, key, s');
    } else {
      var t := OutsideStep(s, tid, key, s');
      assert s.mutex == Some(tid) || s'.mutex == s.mutex || s.mutex.None?;
      CacheOutside(s, tid, t, s');
    }
  }

  lemma CacheSpawn(s: State, l: Label, s': State)
    requires MutexInv(s) && CacheInv(s) && SpawnStep(s, l) == Some(s')
    ensures CacheInv(s')
  {
    assert s'.h.stmts == s.h.stmts && s'.phase == s.phase && s'.mutex == s.mutex;
    forall i | 0 <= i < |s'.threads| ensures CallInv(s', s'.threads[i]) {
      assert i < |s.threads| ==> s'.threads[i] == s.threads[i] && CallInv(s, s.threads[i]);
    }
    CacheElsewhere(s, s');
  }

  lemma CacheStep(s: State, l: Label, s': State)
    requires MutexInv(s) && LifeInv(s.h, s.phase) && CacheInv(s) && Step(s, l) == Some(s')
    ensures CacheInv(s')
  {
    match l {
      case CallMove(tid, generated) =>
        var key, pc, pc' := CallStepEffect(s, tid, generated, s');
        CacheCall(s, tid, key, pc, pc', s');
      case FetcherMove(tid, ok) =>
        var t := FetcherStepEffect(s, tid, ok, s');
        CacheFetcher(s, tid, t, s');
      case SaverMove(tid, ok) => CacheSaver(s, tid, ok, s');
      case CloserMove(tid, key) => CacheCloser(s, tid, key, s');
      case _ => CacheSpawn(s, l, s');
    }
  }

  // ---- The wait groups ----

  predicate IsPending(t: Thread, g: nat) {
    t.Saver? && t.group == Some(g) && !t.saving.Gone?
  }

  function PendingWeight(g: nat): Thread -> nat {
    (t: Thread) => if IsPending(t, g) then 1 else 0
  }

  ghost predicate Counts(s: State) {
    && (forall g | g in s.groups :: s.groups[g].pending == Sum(s.threads, PendingWeight(g)))
    && (forall i | 0 <= i < |s.threads| && InGroup(s.threads[i]) :: s.threads[i].group.value in s.groups)
  }

  predicate InGroup(t: Thread) {
    (t.Saver? || t.Fetcher?) && t.group.Some?
  }

  /** A save of group `g` counted before its wait returned. */
  predicate EarlyIn(t: Thread, g: nat) {
    t.Saver? && t.group == Some(g) && t.early
  }

  ghost predicate Waits(s: State) {
    && (forall g | g in s.groups && s.groups[g].closed :: g in s.waited)
    && (forall g, i | g in s.waited && 0 <= i < |s.threads| && EarlyIn(s.threads[i], g) :: s.threads[i].saving.Gone?)
    && (forall g | g in s.waited :: g in s.groups)
    && (s.phase.Waited? ==> s.phase.group in s.waited)
    && (s.phase.NotClosing? || s.phase.Stopping? || s.phase.ClosingQueue? ==> s.waited == {})
  }

  ghost predicate Listens(s: State) {
    && (forall g | WaitFor(g) in s.h.ran :: g in s.waited && g in s.groups && s.groups[g].closed)
    && (forall g | WaitFor(g) in s.h.accepted :: g in s.groups)
  }

  ghost predicate GroupInv(s: State) {
    Counts(s) && Waits(s) && Listens(s)
  }

  lemma CountsMove(s: State, tid: nat, t: Thread, s': State)
    requires Counts(s) && tid < |s.threads| && s'.threads == s.threads[tid := t]
    requires InGroup(t) ==> InGroup(s.threads[tid]) && t.group == s.threads[tid].group
    requires s'.groups.Keys == s.groups.Keys
    requires forall g | g in s.groups ::
               s'.groups[g].pending + PendingWeight(g)(s.threads[tid]) == s.groups[g].pending + PendingWeight(g)(t)
    ensures Counts(s')
  {
    forall g | g in s'.groups ensures s'.groups[g].pending == Sum(s'.threads, PendingWeight(g)) {
      SumUpdate(s.threads, tid, t, PendingWeight(g));
    }
  }

  lemma GroupCall(s: State, tid: nat, key: StmtKey, pc: CallPc, pc': CallPc, s': State)
    requires GroupInv(s) && CallEffect(s, tid, key, pc, pc', s')
    ensures GroupInv(s')
  {
    var t := WithCall(s.threads[tid], pc');
    CountsMove(s, tid, t, s');
    assert forall i | 0 <= i < |s.threads| && i != tid :: s'.threads[i] == s.threads[i];
  }

  lemma GroupFetcher(s: State, tid: nat, t: Thread, s': State)
    requires GroupInv(s) && FetcherEffect(s, tid, t, s')
    ensures GroupInv(s')
  {
    CountsMove(s, tid, t, s');
    assert forall i | 0 <= i < |s.threads| && i != tid :: s'.threads[i] == s.threads[i];
  }

  lemma GroupSaver(s: State, tid: nat, ok: bool, s': State)
    requires GroupInv(s) && SaverStep(s, tid, ok) == Some(s')
    ensures GroupInv(s')
  {
    CountsMove(s, tid, s'.threads[tid], s');
    assert forall i | 0 <= i < |s.threads| && i != tid :: s'.threads[i] == s.threads[i];
    assert !s.threads[tid].saving.Gone?;
  }

  /** When the count of a group is zero all its saves are done. */
  lemma ZeroMeansDone(s: State, g: nat)
    requires Counts(s) && g in s.groups && s.groups[g].pending == 0
    ensures forall i | 0 <= i < |s.threads| :: !IsPending(s.threads[i], g)
  {
    forall i | 0 <= i < |s.threads| ensures !IsPending(s.threads[i], g) {
      SumCovers(s.threads, i, PendingWeight(g));
    }
  }

  lemma GroupTeardown(s: State, key: StmtKey, s': State)
    requires GroupInv(s) && TeardownStep(s, key) == Some(s')
    ensures GroupInv(s')
  {
    assert s'.threads == s.threads && s'.groups == s.groups && s'.waited == s.waited;
    assert s'.h.ran == s.h.ran && s'.h.accepted == s.h.accepted;
  }

  lemma CountsListen(s: State, s': State)
    requires Counts(s) && ListenStep(s) == Some(s')
    ensures Counts(s')
  {
    assert s'.threads == s.threads && s'.groups.Keys == s.groups.Keys;
    assert forall g | g in s.groups :: s'.groups[g].pending == s.groups[g].pending;
  }

  lemma WaitsListen(s: State, s': State)
    requires Counts(s) && Waits(s) && ListenStep(s) == Some(s')
    ensures Waits(s')
  {
    assert s'.threads == s.threads;
    if s.phase.Waiting? {
      ZeroMeansDone(s, s.phase.group);
    }
  }

  lemma ListensListen(s: State, s': State)
    requires Waits(s) && Listens(s) && ListenStep(s) == Some(s')
    ensures Listens(s')
  {
    assert s'.h.accepted == s.h.accepted && s'.groups.Keys == s.groups.Keys && s.waited <= s'.waited;
    assert forall g | g in s.groups && s.groups[g].closed :: s'.groups[g].closed;
    ActiveListeners(s, SaveStmt, s');
    forall g | WaitFor(g) in s'.h.ran ensures g in s'.waited && g in s'.groups && s'.groups[g].closed {
      if WaitFor(g) !in s.h.ran {
        assert WaitFor(g) in Current(s.phase);
      }
    }
  }

  lemma ActiveGroups(s: State, key: StmtKey, s': State)
    requires GroupInv(s) && LifeInv(s.h, s.phase) && ActiveStep(s, key) == Some(s')
    ensures GroupInv(s')
  {
    if QueueDrained(s.phase) {
      GroupTeardown(s, key, s');
    } else {
      CountsListen(s, s');
      WaitsListen(s, s');
      ListensListen(s, s');
    }
  }

  lemma GroupOutside(s: State, tid: nat, t: Thread, s': State)
    requires GroupInv(s) && OutsideEffect(s, tid, t, s')
    ensures GroupInv(s')
  {
    CountsMove(s, tid, t, s');
    assert forall i | 0 <= i < |s.threads| && i != tid :: s'.threads[i] == s.threads[i];
  }

  lemma GroupCloser(s: State, tid: nat, key: StmtKey, s': State)
    requires MutexInv(s) && GroupInv(s) && LifeInv(s.h, s.phase) && CloserStep(s, tid, key) == Some(s')
    ensures GroupInv(s')
  {
    if s.threads[tid].closing.Active? && s.phase != Marking {
      ActiveGroups(s, key, s');
    } else {
      var t := OutsideStep(s, tid, key, s');
      GroupOutside(s, tid, t, s');
    }
  }

  lemma GroupSpawn(s: State, l: Label, s': State)
    requires GroupInv(s) && SpawnStep(s, l) == Some(s')
    ensures GroupInv(s')
  {
    if |s'.threads| > |s.threads| {
      var t := s'.threads[|s.threads|];
      forall g ensures Sum(s'.threads, PendingWeight(g)) == Sum(s.threads, PendingWeight(g)) + PendingWeight(g)(t) {
        SumAppend(s.threads, t, PendingWeight(g));
      }
    } else if l.NewFetcher? {
      assert forall i | 0 <= i < |s.threads| :: PendingWeight(l.group)(s.threads[i]) == 0;
      SumZero(s.threads, PendingWeight(l.group));
    }
  }

  lemma GroupStep(s: State, l: Label, s': State)
    requires MutexInv(s) && LifeInv(s.h, s.phase) && GroupInv(s) && Step(s, l) == Some(s')
    ensures GroupInv(s')
  {
    match l {
      case CallMove(tid, generated) =>
        var key, pc, pc' := CallStepEffect(s, tid, generated, s');
        GroupCall(s, tid, key, pc, pc', s');
      case FetcherMove(tid, ok) =>
        var t := FetcherStepEffect(s, tid, ok, s');
        GroupFetcher(s, tid, t, s');
      case SaverMove(tid, ok) => GroupSaver(s, tid, ok, s');
      case CloserMove(tid, key) => GroupCloser(s, tid, key, s');
      case _ => GroupSpawn(s, l, s');
    }
  }

  // ---- Every statement is closed once ----

  ghost predicate WasGenerated(s: State, k: StmtKey) {
    exists p | p in s.generated :: p.0 == k
  }

  ghost predicate ClosedOnce(s: State) {
    && NoRepeats(s.h.closedKeys)
    && match s.phase
       case ClosingStmts(todo) => forall k :: k in s.h.closedKeys <==> k in s.h.stmts && k !in todo
       case Clearing => forall k :: k in s.h.closedKeys <==> k in s.h.stmts
       case _ => Emptied(s.phase) ==> forall k :: k in s.h.closedKeys <==> WasGenerated(s, k)
  }

  lemma ClosedOnceCall(s: State, tid: nat, key: StmtKey, pc: CallPc, pc': CallPc, s': State)
    requires MutexInv(s) && LifeInv(s.h, s.phase) && StoringBeforeClose(s) && ClosedOnce(s)
    requires CallEffect(s, tid, key, pc, pc', s')
    ensures ClosedOnce(s')
  {
    if pc'.Storing? {
      assert Holds(s.threads[tid]) && !Busy(s.phase) && s.h.open;
    }
    if pc.Storing? {
      assert s.phase.NotClosing?;
    }
  }

  lemma ClosedOnceTeardown(s: State, key: StmtKey, s': State)
    requires MutexInv(s) && Drained(s.h, s.phase) && CacheInv(s) && ClosedOnce(s) && Busy(s.phase)
    requires TeardownStep(s, key) == Some(s')
    ensures ClosedOnce(s')
  {
    forall k ensures WasGenerated(s', k) == WasGenerated(s, k) {
    }
    if s.phase.Clearing? {
      assert CallOf(s.threads[s.mutex.value]).None?;
      forall k ensures k in s.h.stmts <==> WasGenerated(s, k) {
        if k in s.h.stmts {
          assert (k, s.h.stmts[k]) in s.generated;
        }
      }
    }
  }

  lemma ClosedOnceActive(s: State, key: StmtKey, s': State)
    requires MutexInv(s) && LifeInv(s.h, s.phase) && CacheInv(s) && ClosedOnce(s) && Busy(s.phase)
    requires ActiveStep(s, key) == Some(s')
    ensures ClosedOnce(s')
  {
    if QueueDrained(s.phase) {
      ClosedOnceTeardown(s, key, s');
    } else {
      assert s'.h.closedKeys == [] && !Emptied(s'.phase);
    }
  }

  lemma ClosedOnceElsewhere(s: State, s': State)
    requires ClosedOnce(s)
    requires s'.h.closedKeys == s.h.closedKeys && s'.h.stmts == s.h.stmts && s'.generated == s.generated
    requires s'.phase == s.phase || (s.phase.Marking? && s'.phase.Closed?)
             || (!QueueDrained(s.phase) && !QueueDrained(s'.phase))
    ensures ClosedOnce(s')
  {
    forall k ensures WasGenerated(s', k) == WasGenerated(s, k) {
    }
  }

  lemma ClosedOnceCloser(s: State, tid: nat, key: StmtKey, s': State)
    requires MutexInv(s) && LifeInv(s.h, s.phase) && CacheInv(s) && ClosedOnce(s) && CloserStep(s, tid, key) == Some(s')
    ensures ClosedOnce(s')
  {
    if s.threads[tid].closing.Active? && s.phase != Marking {
      ClosedOnceActive(s, key, s');
    } else {
      var t := OutsideStep(s, tid, key, s');
      ClosedOnceElsewhere(s, s');
    }
  }

  lemma ClosedOnceStep(s: State, l: Label, s': State)
    requires MutexInv(s) && LifeInv(s.h, s.phase) && StoringBeforeClose(s) && CacheInv(s) && ClosedOnce(s)
    requires Step(s, l) == Some(s')
    ensures ClosedOnce(s')
  {
    match l {
      case CallMove(tid, generated) =>
        var key, pc, pc' := CallStepEffect(s, tid, generated, s');
        ClosedOnceCall(s, tid, key, pc, pc', s');
      case CloserMove(tid, key) =>
        ClosedOnceCloser(s, tid, key, s');
      case _ =>
        AsideStep(s, l, s');
        ClosedOnceElsewhere(s, s');
    }
  }

  // ---- Every run ----

  ghost predicate Inv(s: State) {
    MutexInv(s) && LifeInv(s.h, s.phase) && StoringBeforeClose(s) && CacheInv(s) && GroupInv(s) && ClosedOnce(s)
  }

  /** A generator finds no database only after Close has done its work. */
  lemma NilDatabaseMeansClosed(s: State, tid: nat)
    requires MutexInv(s) && LifeInv(s.h, s.phase) && AtNilDatabase(s, tid)
    ensures s.phase.Closed?
  {
    assert Holds(s.threads[tid]);
  }

  lemma InvStep(s: State, l: Label, s': State)
    requires Inv(s) && Step(s, l) == Some(s')
    ensures Inv(s')
  {
    MutexStep(s, l, s');
    LifeStep(s, l, s');
    StoringStep(s, l, s');
    CacheStep(s, l, s');
    GroupStep(s, l, s');
    ClosedOnceStep(s, l, s');
  }

  lemma {:induction false} RunKeepsInv(s: State, run: seq<Label>, s': State)
    requires Inv(s) && Leads(s, run, s')
    ensures Inv(s')
    decreases |run|
  {
    if run != [] {
      InvStep(s, run[0], Step(s, run[0]).value);
      RunKeepsInv(Step(s, run[0]).value, run[1..], s');
    }
  }

  lemma InitialInv()
    ensures Inv(INITIAL)
  {
    assert MutexInv(INITIAL);
    assert LifeInv(INITIAL.h, INITIAL.phase);
    assert CacheInv(INITIAL);
    assert GroupInv(INITIAL);
  }

  lemma ReachableInv(run: seq<Label>, s: State)
    requires Leads(INITIAL, run, s)
    ensures Inv(s)
  {
    InitialInv();
    RunKeepsInv(INITIAL, run, s);
  }

  /** In every run each key has at most one successful generator call, and everything cached for a key, handed out for it
      or held by a caller is the one statement generated for it. */
  lemma StatementCacheSafe(run: seq<Label>, s: State)
    requires Leads(INITIAL, run, s)
    ensures DistinctKeys(s.generated)
    ensures forall p | p in s.returned :: p in s.generated
    ensures forall p, q | p in s.returned && q in s.returned && p.0 == q.0 :: p == q
    ensures forall k | k in s.h.stmts :: (k, s.h.stmts[k]) in s.generated
    ensures forall i | 0 <= i < |s.threads| && CallOf(s.threads[i]).Some? ::
              var (key, call) := CallOf(s.threads[i]).value;
              call.Answered? && call.result.Some? ==> (key, call.result.value) in s.generated
  {
    ReachableInv(run, s);
    forall i | 0 <= i < |s.threads| && CallOf(s.threads[i]).Some?
      ensures
        var (key, call) := CallOf(s.threads[i]).value;
        call.Answered? && call.result.Some? ==> (key, call.result.value) in s.generated
    {
      assert CallInv(s, s.threads[i]);
    }
    forall p, q | p in s.returned && q in s.returned && p.0 == q.0 ensures p == q {
      var i :| 0 <= i < |s.generated| && s.generated[i] == p;
      var j :| 0 <= j < |s.generated| && s.generated[j] == q;
      assert i == j;
    }
  }

  /** A call between its re-check and its return whose generator has failed or is about to. */
  predicate Failing(t: Thread) {
    CallOf(t).Some? && (CallOf(t).value.1.Generate? || CallOf(t).value.1 == Unlocking(None))
  }

  lemma FailingBesideCall(s: State, tid: nat, other: nat, key: StmtKey, pc: CallPc, pc': CallPc, s': State)
    requires MutexInv(s) && tid < |s.threads| && Failing(s.threads[tid]) && CallEffect(s, other, key, pc, pc', s')
    requires other == tid ==> !pc'.Storing?
    ensures s'.h.stmts == s.h.stmts && s'.generated == s.generated
    ensures if other == tid
            then Failing(s'.threads[tid]) || CallOf(s'.threads[tid]) == Some((key, Answered(None)))
            else s'.threads[tid] == s.threads[tid]
  {
    assert Holds(s.threads[tid]);
    assert Holds(s.threads[other]) ==> other == tid;
  }

  /** A call that holds the mutex keeps every Close out of its work. */
  lemma FailingBesideCloser(s: State, tid: nat, other: nat, key: StmtKey, s': State)
    requires MutexInv(s) && tid < |s.threads| && Failing(s.threads[tid]) && CloserStep(s, other, key) == Some(s')
    ensures s'.h == s.h && s'.generated == s.generated && |s'.threads| == |s.threads|
    ensures s'.threads[tid] == s.threads[tid]
  {
    assert Holds(s.threads[tid]);
    assert !Holds(s.threads[other]);
  }

  lemma FailingStep(s: State, tid: nat, l: Label, s': State)
    requires Inv(s) && tid < |s.threads| && Failing(s.threads[tid]) && Step(s, l) == Some(s')
    requires l.CallMove? && l.thread == tid ==> l.generated.None?
    ensures s'.h.stmts == s.h.stmts && s'.generated == s.generated && tid < |s'.threads|
    ensures if l.CallMove? && l.thread == tid
            then Failing(s'.threads[tid]) || (CallOf(s'.threads[tid]).Some?
                                              && CallOf(s'.threads[tid]).value.1 == Answered(None))
            else s'.threads[tid] == s.threads[tid]
  {
    match l {
      case CallMove(other, generated) =>
        var key, pc, pc' := CallStepEffect(s, other, generated, s');
        FailingBesideCall(s, tid, other, key, pc, pc', s');
      case CloserMove(other, key) => FailingBesideCloser(s, tid, other, key, s');
      case _ => AsideStep(s, l, s');
    }
  }

  /** `run` leads from `s` to `s'` while the generator of thread `tid` fails and the thread has not returned before the
      end. Other threads do what they like. */
  ghost predicate LeadsFailing(s: State, tid: nat, run: seq<Label>, s': State)
    decreases |run|
  {
    if run == [] then s' == s
    else
      && tid < |s.threads| && Failing(s.threads[tid])
      && (run[0].CallMove? && run[0].thread == tid ==> run[0].generated.None?)
      && Step(s, run[0]).Some? && LeadsFailing(Step(s, run[0]).value, tid, run[1..], s')
  }

  /** A failed call leaves no trace: from its re-check until it returns without a statement, whatever other threads do
      meanwhile, the cache is what it was and nothing is generated. */
  lemma {:induction false} FailedCallLeavesCache(s: State, tid: nat, run: seq<Label>, s': State)
    requires Inv(s) && tid < |s.threads| && Failing(s.threads[tid]) && LeadsFailing(s, tid, run, s')
    ensures s'.h.stmts == s.h.stmts && s'.generated == s.generated
    ensures tid < |s'.threads| && CallOf(s'.threads[tid]).Some?
    ensures Failing(s'.threads[tid]) || CallOf(s'.threads[tid]).value.1 == Answered(None)
    decreases |run|
  {
    if run != [] {
      var m := Step(s, run[0]).value;
      FailingStep(s, tid, run[0], m);
      InvStep(s, run[0], m);
      if run[1..] != [] {
        FailedCallLeavesCache(m, tid, run[1..], s');
      }
    }
  }

  /** The life of a handle in every run: at most eight listeners wait; those accepted run in order of registration, each
      once, and all of them before any statement or the database is closed; the fetchers waited for are closed; the
      `done` channel, the listener queue and the database are closed at most once; a closed handle has none of its
      statements left, each of them closed once. */
  lemma HandleLifecycle(run: seq<Label>, s: State)
    requires Leads(INITIAL, run, s)
    ensures |s.h.listeners| <= 8
    ensures s.h.accepted == s.h.ran + Current(s.phase) + s.h.listeners
    ensures s.h.closedKeys != [] || s.h.dbCloses > 0 ==> s.h.ran == s.h.accepted
    ensures forall g | WaitFor(g) in s.h.ran :: g in s.groups && s.groups[g].closed
    ensures s.h.doneCloses <= 1 && s.h.queueCloses <= 1 && s.h.dbCloses <= 1
    ensures s.h.closed ==> s.h.stmts == map[] && !s.h.open && s.h.doneCloses == s.h.queueCloses == s.h.dbCloses == 1
    ensures s.h.closed ==> NoRepeats(s.h.closedKeys) && forall k :: k in s.h.closedKeys <==> WasGenerated(s, k)
  {
    ReachableInv(run, s);
    assert QueueDrained(s.phase) ==> Current(s.phase) == [];
  }

  lemma ClosedBesideCloser(s: State, tid: nat, key: StmtKey, s': State)
    requires MutexInv(s) && LifeInv(s.h, s.phase) && s.h.closed && CloserStep(s, tid, key) == Some(s')
    ensures s'.h == s.h
  {
    assert s.threads[tid] != Closer(Active);
  }

  /** Once closed, a handle never changes again. */
  lemma ClosedIsFinal(run: seq<Label>, s: State, l: Label, s': State)
    requires Leads(INITIAL, run, s) && s.h.closed && Step(s, l) == Some(s')
    ensures s'.h == s.h
  {
    ReachableInv(run, s);
    match l {
      case CallMove(tid, generated) =>
        var key, pc, pc' := CallStepEffect(s, tid, generated, s');
        assert !pc.Storing?;
      case CloserMove(tid, key) => ClosedBesideCloser(s, tid, key, s');
      case _ => AsideStep(s, l, s');
    }
  }

  lemma EarlySavesDone(s: State, g: nat, i: nat)
    requires LifeInv(s.h, s.phase) && GroupInv(s)
    requires s.h.closedKeys != [] || s.h.dbCloses > 0
    requires WaitFor(g) in s.h.accepted && i < |s.threads| && EarlyIn(s.threads[i], g)
    ensures s.threads[i].saving.Gone?
  {
    assert QueueDrained(s.phase) && Current(s.phase) == [];
    assert WaitFor(g) in s.h.ran;
  }

  /** Shutdown safety: once any statement or the database is closed, every fetch save that was counted before the wait of
      its group returned is done, for every group whose listener was accepted. */
  lemma ShutdownSafe(run: seq<Label>, s: State, g: nat, i: nat)
    requires Leads(INITIAL, run, s)
    requires s.h.closedKeys != [] || s.h.dbCloses > 0
    requires WaitFor(g) in s.h.accepted && i < |s.threads| && EarlyIn(s.threads[i], g)
    ensures s.threads[i].saving.Gone?
  {
    ReachableInv(run, s);
    EarlySavesDone(s, g, i);
  }

  // ---- What the saves write ----

  /** What a save has written by now. */
  function WrittenBy(saving: SaverPc): Written {
    match saving
    case Starting => Nothing
    case Calling(stage, _) => Before(stage)
    case Executing(stage) => Before(stage)
    case Finishing(written) => written
    case Gone(written) => written
  }

  /** The statements by which something has been written. */
  function StagesOf(written: Written): seq<Stage> {
    match written
    case Nothing => []
    case RowOnly => [First]
    case Both => [First, Second]
  }

  /** The statement of save `i` that a label executes. */
  function ExecutedBy(s: State, l: Label, i: nat): seq<Stage> {
    if l == SaverMove(i, true) && i < |s.threads| && s.threads[i].Saver? && s.threads[i].saving.Executing?
    then [s.threads[i].saving.stage] else []
  }

  /** The statements of save `i` that a run executes, in order. */
  function Executed(s: State, run: seq<Label>, i: nat): seq<Stage>
    decreases |run|
  {
    if run == [] || Step(s, run[0]).None? then []
    else ExecutedBy(s, run[0], i) + Executed(Step(s, run[0]).value, run[1..], i)
  }

  function StagesBy(s: State, i: nat): seq<Stage> {
    if i < |s.threads| && s.threads[i].Saver? then StagesOf(WrittenBy(s.threads[i].saving)) else []
  }

  lemma CallExecutesNothing(s: State, tid: nat, key: StmtKey, pc: CallPc, pc': CallPc, s': State, i: nat)
    requires CallEffect(s, tid, key, pc, pc', s')
    ensures StagesBy(s', i) == StagesBy(s, i)
  {
  }

  lemma SaverExecutes(s: State, tid: nat, ok: bool, s': State, i: nat)
    requires SaverStep(s, tid, ok) == Some(s')
    ensures StagesBy(s', i) == StagesBy(s, i) + ExecutedBy(s, SaverMove(tid, ok), i)
  {
    if i == tid {
      assert s'.threads[i] == s.threads[i].(saving := SaverNext(s.threads[i].saving, ok).value);
    } else {
      assert i < |s.threads| ==> s'.threads[i] == s.threads[i];
    }
  }

  lemma ExecutedStep(s: State, l: Label, s': State, i: nat)
    requires Step(s, l) == Some(s')
    ensures StagesBy(s', i) == StagesBy(s, i) + ExecutedBy(s, l, i)
  {
    match l {
      case CallMove(tid, generated) =>
        var key, pc, pc' := CallStepEffect(s, tid, generated, s');
        CallExecutesNothing(s, tid, key, pc, pc', s', i);
      case FetcherMove(tid, ok) =>
        var t := FetcherStepEffect(s, tid, ok, s');
      case SaverMove(tid, ok) => SaverExecutes(s, tid, ok, s', i);
      case CloserMove(tid, key) =>
        if s.threads[tid].closing.Active? && s.phase != Marking {
          ActiveChangesPhase(s, key, s');
        }
      case _ =>
    }
  }

  lemma {:induction false} ExecutedRun(s: State, run: seq<Label>, s': State, i: nat)
    requires Leads(s, run, s')
    ensures StagesBy(s', i) == StagesBy(s, i) + Executed(s, run, i)
    decreases |run|
  {
    if run != [] {
      var m := Step(s, run[0]).value;
      ExecutedStep(s, run[0], m, i);
      ExecutedRun(m, run[1..], s', i);
    }
  }

  /** In every run a save has written exactly what its executed statements write: first the row, then the mapping. */
  lemma SavesWriteWhatTheyExecute(run: seq<Label>, s: State, i: nat)
    requires Leads(INITIAL, run, s) && i < |s.threads| && s.threads[i].Saver?
    ensures StagesOf(WrittenBy(s.threads[i].saving)) == Executed(INITIAL, run, i)
  {
    ExecutedRun(INITIAL, run, s, i);
  }

  /** A statement that is about to be executed has been generated for its key. */
  ghost predicate HasStatement(s: State, t: Thread) {
    match t
    case Saver(_, _, Executing(stage)) => WasGenerated(s, if stage.First? then SaveStmt else SaveIdStmt)
    case Fetcher(_, Reading(query)) => WasGenerated(s, if query.ForId? then LookupIdStmt else FetchOneStmt)
    case _ => true
  }

  ghost predicate AllHaveStatements(s: State) {
    forall i | 0 <= i < |s.threads| :: HasStatement(s, s.threads[i])
  }

  lemma GeneratedStays(s: State, t: Thread, s': State)
    requires HasStatement(s, t) && s.generated <= s'.generated
    ensures HasStatement(s', t)
  {
    forall k | WasGenerated(s, k) ensures WasGenerated(s', k) {
      var p :| p in s.generated && p.0 == k;
      assert p in s'.generated;
    }
  }

  lemma AnsweredHasStatement(s: State, tid: nat)
    requires CacheInv(s) && tid < |s.threads| && CallOf(s.threads[tid]).Some?
    requires CallOf(s.threads[tid]).value.1.Answered? && CallOf(s.threads[tid]).value.1.result.Some?
    ensures WasGenerated(s, CallOf(s.threads[tid]).value.0)
  {
    assert CallInv(s, s.threads[tid]);
    var (key, pc) := CallOf(s.threads[tid]).value;
    assert (key, pc.result.value) in s.generated;
  }

  lemma MoverHasStatement(s: State, l: Label, s': State, tid: nat)
    requires CacheInv(s) && Step(s, l) == Some(s') && (l.SaverMove? || l.FetcherMove?) && l.thread == tid
    ensures HasStatement(s', s'.threads[tid])
  {
    var call := CallOf(s.threads[tid]);
    if call.Some? && call.value.1.Answered? && call.value.1.result.Some? {
      AnsweredHasStatement(s, tid);
      assert s'.generated == s.generated;
    }
  }

  lemma StatementsStep(s: State, l: Label, s': State)
    requires Inv(s) && AllHaveStatements(s) && Step(s, l) == Some(s')
    ensures AllHaveStatements(s')
  {
    GeneratedGrows(s, l, s');
    forall i | 0 <= i < |s'.threads| ensures HasStatement(s', s'.threads[i]) {
      if (l.SaverMove? || l.FetcherMove?) && l.thread == i {
        MoverHasStatement(s, l, s', i);
      } else {
        OthersStay(s, l, s', i);
        if i < |s.threads| {
          GeneratedStays(s, s.threads[i], s');
        }
      }
    }
  }

  lemma GeneratedGrows(s: State, l: Label, s': State)
    requires Step(s, l) == Some(s')
    ensures s.generated <= s'.generated && |s.threads| <= |s'.threads|
  {
    match l {
      case CallMove(tid, generated) =>
        var key, pc, pc' := CallStepEffect(s, tid, generated, s');
      case CloserMove(tid, key) =>
        if s.threads[tid].closing.Active? && s.phase != Marking {
          ActiveKeepsCache(s, key, s');
          ActiveChangesPhase(s, key, s');
        }
      case _ => AsideStep(s, l, s');
    }
  }

  /** A thread that neither saves nor fetches by this label stays as it is, or goes on with a call or with Close. */
  lemma OthersStay(s: State, l: Label, s': State, i: nat)
    requires Step(s, l) == Some(s') && i < |s'.threads|
    requires !((l.SaverMove? || l.FetcherMove?) && l.thread == i)
    ensures (i < |s.threads| && s'.threads[i] == s.threads[i]) || CallOf(s'.threads[i]).Some? || s'.threads[i].Closer?
  {
    match l {
      case CallMove(tid, generated) =>
        var key, pc, pc' := CallStepEffect(s, tid, generated, s');
      case FetcherMove(tid, ok) =>
        var t := FetcherStepEffect(s, tid, ok, s');
      case CloserMove(tid, key) =>
        if s.threads[tid].closing.Active? && s.phase != Marking {
          ActiveChangesPhase(s, key, s');
        }
      case _ =>
    }
  }

  lemma {:induction false} RunKeepsStatements(s: State, run: seq<Label>, s': State)
    requires Inv(s) && AllHaveStatements(s) && Leads(s, run, s')
    ensures AllHaveStatements(s')
    decreases |run|
  {
    if run != [] {
      var m := Step(s, run[0]).value;
      StatementsStep(s, run[0], m);
      InvStep(s, run[0], m);
      RunKeepsStatements(m, run[1..], s');
    }
  }

  /** In every run a save or fetch that is about to execute a statement has the one that was generated for its key. */
  lemma StatementsArePrepared(run: seq<Label>, s: State, i: nat)
    requires Leads(INITIAL, run, s) && i < |s.threads|
    ensures s.threads[i].Saver? && s.threads[i].saving.Executing? ==>
              WasGenerated(s, if s.threads[i].saving.stage.First? then SaveStmt else SaveIdStmt)
    ensures s.threads[i].Fetcher? && s.threads[i].fetching.Reading? ==>
              WasGenerated(s, if s.threads[i].fetching.query.ForId? then LookupIdStmt else FetchOneStmt)
  {
    InitialInv();
    RunKeepsStatements(INITIAL, run, s);
    assert HasStatement(s, s.threads[i]);
  }

  // ---- Cancellation ----

  /** A run after the context of the handle is cancelled: no statement can be prepared or executed. */
  ghost predicate Cancelled(run: seq<Label>) {
    forall i | 0 <= i < |run| ::
      && (run[i].SaverMove? ==> !run[i].ok)
      && (run[i].CallMove? ==> run[i].generated.None?)
  }

  lemma CancelledStep(s: State, l: Label, s': State, i: nat)
    requires Step(s, l) == Some(s') && i < |s.threads| && s.threads[i].Saver?
    requires l.SaverMove? ==> !l.ok
    ensures i < |s'.threads| && s'.threads[i].Saver? && s'.threads[i].group == s.threads[i].group
    ensures s'.threads[i].early == s.threads[i].early
    ensures WrittenBy(s'.threads[i].saving) == WrittenBy(s.threads[i].saving)
  {
    if l.CallMove? {
      var key, pc, pc' := CallStepEffect(s, l.thread, l.generated, s');
    } else if l.CloserMove? {
      if s.threads[l.thread].closing.Active? && s.phase != Marking {
        ActiveChangesPhase(s, l.key, s');
      }
    }
  }

  lemma {:induction false} CancelledSavesWriteNoMore(s: State, run: seq<Label>, s': State, i: nat)
    requires Leads(s, run, s') && Cancelled(run) && i < |s.threads| && s.threads[i].Saver?
    ensures i < |s'.threads| && s'.threads[i].Saver? && s'.threads[i].group == s.threads[i].group
    ensures s'.threads[i].early == s.threads[i].early
    ensures WrittenBy(s'.threads[i].saving) == WrittenBy(s.threads[i].saving)
    decreases |run|
  {
    if run != [] {
      var m := Step(s, run[0]).value;
      CancelledStep(s, run[0], m, i);
      assert forall k | 0 <= k < |run[1..]| :: run[1..][k] == run[k + 1];
      CancelledSavesWriteNoMore(m, run[1..], s', i);
    }
  }

  /** What an early save has stored when a cancelled context shuts the handle: exactly what the statements it executed
      before the context was cancelled wrote. It is done when anything is closed, but it may have stored nothing, or the
      page without its mapping. */
  lemma CancelledShutdownStores(history: seq<Label>, s: State, run: seq<Label>, s': State, g: nat, i: nat)
    requires Leads(INITIAL, history, s) && Leads(s, run, s') && Cancelled(run)
    requires s'.h.closedKeys != [] || s'.h.dbCloses > 0
    requires WaitFor(g) in s'.h.accepted && i < |s.threads| && EarlyIn(s.threads[i], g)
    ensures i < |s'.threads| && s'.threads[i].Saver?
    ensures s'.threads[i].saving.Gone? && StagesOf(s'.threads[i].saving.written) == Executed(INITIAL, history, i)
    ensures Executed(s, run, i) == []
  {
    ExecutedRun(INITIAL, history, s, i);
    ExecutedRun(s, run, s', i);
    CancelledSavesWriteNoMore(s, run, s', i);
    ReachableInv(history, s);
    RunKeepsInv(s, run, s');
    EarlySavesDone(s', g, i);
  }
}
