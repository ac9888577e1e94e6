/** When a shutdown completes: threads left to themselves come to rest, and they come to rest with the handle closed
    exactly when no awaited save can still ask for the mutex that Close holds. No thread then meets the missing database
    exactly when no other thread has a statement still to look up. */
module ShutdownProgress {
  import opened Wrappers
  import opened Handles
  import opened Shutdown

  // ---- Progress ----

  predicate ThreadMove(l: Label) {
    l.CallMove? || l.FetcherMove? || l.SaverMove? || l.CloserMove?
  }

  /** The run starts no new threads and registers nothing. */
  ghost predicate OnlyMoves(run: seq<Label>) {
    forall i | 0 <= i < |run| :: ThreadMove(run[i])
  }

  /** No thread can move, unless to crash. */
  ghost predicate Stuck(s: State) {
    forall l: Label :: ThreadMove(l) ==> Step(s, l).None?
  }

  /** Some thread is about to crash. */
  ghost predicate CanCrash(s: State) {
    exists l: Label :: Crashes(s, l)
  }

  predicate Finished(t: Thread) {
    match t
    case Lookup(_, call) => call.Answered?
    case Fetcher(_, fetching) => fetching.Ended?
    case Saver(_, _, saving) => saving.Gone?
    case Closer(closing) => closing.Returned?
  }

  function CallEffort(pc: CallPc): nat {
    match pc
    case FastRead => 8
    case WantLock => 7
    case Recheck => 6
    case Generate => 5
    case Storing(_) => 4
    case Unlocking(_) => 1
    case Answered(_) => 0
  }

  function Effort(t: Thread): nat {
    match t
    case Lookup(_, call) => CallEffort(call)
    case Fetcher(_, fetching) =>
      (match fetching
       case Asking(query, call) => (if query == ForId then 35 else 25) + CallEffort(call)
       case Reading(query) => if query == ForId then 34 else 24
       case Retrieving => 23
       case Ended => 0)
    case Saver(_, _, saving) =>
      (match saving
       case Starting => 22
       case Calling(stage, call) => (if stage == First then 13 else 3) + CallEffort(call)
       case Executing(stage) => if stage == First then 12 else 2
       case Finishing(_) => 1
       case Gone(_) => 0)
    case Closer(closing) =>
      (match closing
       case Checking => 5
       case WantMutex => 4
       case Rechecking => 3
       case Active => 2
       case Releasing => 1
       case Returned => 0)
  }

  function PhaseEffort(phase: Phase, listeners: nat, stmts: nat): nat {
    match phase
    case NotClosing => 20 + 5 * listeners + stmts
    case Stopping => 19 + 5 * listeners + stmts
    case ClosingQueue => 18 + 5 * listeners + stmts
    case Draining => 10 + 5 * listeners + stmts
    case Running(_) => 14 + 5 * listeners + stmts
    case Waiting(_) => 13 + 5 * listeners + stmts
    case Waited(_) => 12 + 5 * listeners + stmts
    case ClosingStmts(todo) => 5 + |todo|
    case Clearing => 4
    case ClosingDb => 3
    case Marking => 2
    case Closed => 0
  }

  function TotalEffort(s: State): nat {
    Sum(s.threads, Effort) + PhaseEffort(s.phase, |s.h.listeners|, |s.h.stmts|)
  }

  lemma EffortMove(s: State, tid: nat, s': State)
    requires tid < |s.threads| && |s'.threads| == |s.threads|
    requires s'.threads == s.threads[tid := s'.threads[tid]]
    ensures Sum(s'.threads, Effort) + Effort(s.threads[tid]) == Sum(s.threads, Effort) + Effort(s'.threads[tid])
  {
    SumUpdate(s.threads, tid, s'.threads[tid], Effort);
  }

  lemma EffortCall(s: State, tid: nat, key: StmtKey, pc: CallPc, pc': CallPc, s': State)
    requires StoringBeforeClose(s) && CallEffect(s, tid, key, pc, pc', s')
    ensures TotalEffort(s') < TotalEffort(s)
  {
    EffortMove(s, tid, s');
    assert CallEffort(pc') < CallEffort(pc);
    if pc.Storing? {
      assert s.phase.NotClosing? && |s'.h.stmts| <= |s.h.stmts| + 1;
      assert CallEffort(pc) == 4 && CallEffort(pc') == 1;
    }
  }

  lemma EffortDraining(s: State, s': State)
    requires s.phase.Draining? && ListenStep(s) == Some(s')
    ensures PhaseEffort(s'.phase, |s'.h.listeners|, |s'.h.stmts|) < PhaseEffort(s.phase, |s.h.listeners|, |s.h.stmts|)
  {
    if s.h.listeners == [] {
      assert s'.phase == ClosingStmts(s.h.stmts.Keys) && |s.h.stmts.Keys| == |s.h.stmts|;
    } else {
      assert |s'.h.listeners| == |s.h.listeners| - 1;
    }
  }

  lemma EffortListen(s: State, s': State)
    requires ListenStep(s) == Some(s')
    ensures PhaseEffort(s'.phase, |s'.h.listeners|, |s'.h.stmts|) < PhaseEffort(s.phase, |s.h.listeners|, |s.h.stmts|)
  {
    if s.phase.Draining? {
      EffortDraining(s, s');
    } else {
      assert s'.h.stmts == s.h.stmts && s'.h.listeners == s.h.listeners;
    }
  }

  lemma EffortTeardown(s: State, key: StmtKey, s': State)
    requires TeardownStep(s, key) == Some(s')
    ensures PhaseEffort(s'.phase, |s'.h.listeners|, |s'.h.stmts|) < PhaseEffort(s.phase, |s.h.listeners|, |s.h.stmts|)
  {
    if s.phase.ClosingStmts? && s.phase.todo != {} {
      assert |s.phase.todo - {key}| == |s.phase.todo| - 1;
    }
  }

  lemma EffortSaver(s: State, tid: nat, ok: bool, s': State)
    requires SaverStep(s, tid, ok) == Some(s')
    ensures TotalEffort(s') < TotalEffort(s)
  {
    EffortMove(s, tid, s');
    assert s'.h == s.h && s'.phase == s.phase;
    assert Effort(s'.threads[tid]) < Effort(s.threads[tid]);
  }

  lemma EffortFetcher(s: State, tid: nat, ok: bool, s': State)
    requires FetcherStep(s, tid, ok) == Some(s')
    ensures TotalEffort(s') < TotalEffort(s)
  {
    EffortMove(s, tid, s');
    assert s'.h == s.h && s'.phase == s.phase;
    assert Effort(s'.threads[tid]) < Effort(s.threads[tid]);
  }

  lemma EffortOutside(s: State, tid: nat, key: StmtKey, s': State)
    requires MutexInv(s) && LifeInv(s.h, s.phase) && CloserStep(s, tid, key) == Some(s')
    requires !s.threads[tid].closing.Active? || s.phase.Marking?
    ensures TotalEffort(s') < TotalEffort(s)
  {
    var t := OutsideStep(s, tid, key, s');
    EffortMove(s, tid, s');
    assert Effort(t) < Effort(s.threads[tid]);
  }

  lemma EffortCloser(s: State, tid: nat, key: StmtKey, s': State)
    requires MutexInv(s) && LifeInv(s.h, s.phase) && CloserStep(s, tid, key) == Some(s')
    ensures TotalEffort(s') < TotalEffort(s)
  {
    if s.threads[tid].closing.Active? && s.phase != Marking {
      ActiveChangesPhase(s, key, s');
      if QueueDrained(s.phase) {
        EffortTeardown(s, key, s');
      } else {
        EffortListen(s, s');
      }
    } else {
      EffortOutside(s, tid, key, s');
    }
  }

  lemma EffortStep(s: State, l: Label, s': State)
    requires Inv(s) && ThreadMove(l) && Step(s, l) == Some(s')
    ensures TotalEffort(s') < TotalEffort(s)
  {
    match l {
      case CallMove(tid, generated) =>
        var key, pc, pc' := CallStepEffect(s, tid, generated, s');
        EffortCall(s, tid, key, pc, pc', s');
      case FetcherMove(tid, ok) => EffortFetcher(s, tid, ok, s');
      case SaverMove(tid, ok) => EffortSaver(s, tid, ok, s');
      case CloserMove(tid, key) => EffortCloser(s, tid, key, s');
    }
  }

  /** Threads that are left to themselves come to rest: a run that starts no threads is no longer than the effort left. */
  lemma {:induction false} MovesAreBounded(s: State, run: seq<Label>, s': State)
    requires Inv(s) && OnlyMoves(run) && Leads(s, run, s')
    ensures |run| + TotalEffort(s') <= TotalEffort(s)
    decreases |run|
  {
    if run != [] {
      var s1 := Step(s, run[0]).value;
      InvStep(s, run[0], s1);
      EffortStep(s, run[0], s1);
      MovesAreBounded(s1, run[1..], s');
    }
  }

  lemma {:induction false} MaximalRun(s: State) returns (run: seq<Label>, s': State)
    requires Inv(s)
    ensures OnlyMoves(run) && Leads(s, run, s') && Stuck(s')
    decreases TotalEffort(s)
  {
    if Stuck(s) {
      run, s' := [], s;
    } else {
      var l: Label :| ThreadMove(l) && Step(s, l).Some?;
      InvStep(s, l, Step(s, l).value);
      EffortStep(s, l, Step(s, l).value);
      var rest;
      rest, s' := MaximalRun(Step(s, l).value);
      run := [l] + rest;
      StepThenRun(s, l, Step(s, l).value, rest, s');
    }
  }

  // ---- When Close completes ----

  /** The groups whose wait is still to come. */
  predicate Awaited(s: State, g: nat) {
    WaitFor(g) in s.h.listeners || s.phase == Running(WaitFor(g)) || s.phase == Waiting(g)
  }

  /** A save that will never ask for the mutex: it is not past a missed fast read, and every statement it has yet to look
      up is cached. */
  predicate Unblockable(stmts: map<StmtKey, Stmt>, saving: SaverPc) {
    match saving
    case Starting => SaveStmt in stmts && SaveIdStmt in stmts
    case Calling(First, FastRead) => SaveStmt in stmts && SaveIdStmt in stmts
    case Calling(First, Answered(result)) => result.None? || SaveIdStmt in stmts
    case Executing(First) => SaveIdStmt in stmts
    case Calling(Second, FastRead) => SaveIdStmt in stmts
    case Calling(Second, Answered(_)) => true
    case Calling(_, _) => false
    case _ => true
  }

  predicate SaveCached(stmts: map<StmtKey, Stmt>) {
    SaveStmt in stmts && SaveIdStmt in stmts
  }

  predicate FetchCached(stmts: map<StmtKey, Stmt>) {
    LookupIdStmt in stmts && FetchOneStmt in stmts
  }

  /** A fetch that can come to its save without asking for the mutex. */
  predicate Passable(stmts: map<StmtKey, Stmt>, fetching: FetcherPc) {
    match fetching
    case Asking(ForId, FastRead) => FetchCached(stmts)
    case Asking(ForId, Answered(result)) => result.Some? && FetchOneStmt in stmts
    case Reading(ForId) => FetchOneStmt in stmts
    case Asking(ForPage, FastRead) => FetchOneStmt in stmts
    case Asking(ForPage, Answered(result)) => result.Some?
    case Reading(ForPage) => true
    case Retrieving => true
    case _ => false
  }

  /** A thread that will not block a Close that waits for its group: a save that never asks for the mutex, or a fetch that
      cannot come to its save, or whose save never will. */
  predicate Ready(s: State, t: Thread) {
    match t
    case Saver(Some(g), _, saving) => Awaited(s, g) ==> Unblockable(s.h.stmts, saving)
    case Fetcher(Some(g), fetching) => Awaited(s, g) && Passable(s.h.stmts, fetching) ==> SaveCached(s.h.stmts)
    case _ => true
  }

  /** The condition for a clean shutdown, to be read off the moment Close has the mutex. */
  ghost predicate AllReady(s: State) {
    forall i | 0 <= i < |s.threads| :: Ready(s, s.threads[i])
  }

  /** Close is before or among its listeners. */
  predicate AmongListeners(phase: Phase) {
    Busy(phase) && !QueueDrained(phase)
  }

  lemma ReadyCall(s: State, tid: nat, key: StmtKey, pc: CallPc, pc': CallPc, s': State)
    requires MutexInv(s) && AmongListeners(s.phase) && AllReady(s) && CallEffect(s, tid, key, pc, pc', s')
    ensures AllReady(s')
  {
    assert Ready(s, s.threads[tid]);
    assert !Holds(s.threads[tid]);
    forall i | 0 <= i < |s'.threads| ensures Ready(s', s'.threads[i]) {
      assert i != tid ==> s'.threads[i] == s.threads[i] && Ready(s, s.threads[i]);
    }
  }

  lemma ReadySaver(s: State, tid: nat, ok: bool, s': State)
    requires AllReady(s) && SaverStep(s, tid, ok) == Some(s')
    ensures AllReady(s')
  {
    assert Ready(s, s.threads[tid]);
    assert s'.h == s.h && s'.phase == s.phase;
    forall i | 0 <= i < |s'.threads| ensures Ready(s', s'.threads[i]) {
      assert i != tid ==> s'.threads[i] == s.threads[i] && Ready(s, s.threads[i]);
    }
  }

  lemma ReadyFetcher(s: State, tid: nat, ok: bool, s': State)
    requires AllReady(s) && FetcherStep(s, tid, ok) == Some(s')
    ensures AllReady(s')
  {
    assert Ready(s, s.threads[tid]);
    assert s'.h == s.h && s'.phase == s.phase;
    forall i | 0 <= i < |s'.threads| ensures Ready(s', s'.threads[i]) {
      assert i != tid ==> s'.threads[i] == s.threads[i] && Ready(s, s.threads[i]);
    }
  }

  lemma ReadyCloser(s: State, tid: nat, key: StmtKey, s': State)
    requires MutexInv(s) && AmongListeners(s.phase) && AllReady(s) && CloserStep(s, tid, key) == Some(s')
    ensures Busy(s'.phase) && (QueueDrained(s'.phase) || AllReady(s'))
  {
    if s.threads[tid].closing.Active? {
      assert ListenStep(s) == Some(s');
      assert s'.threads == s.threads && s'.h.stmts == s.h.stmts;
      assert forall g :: Awaited(s', g) ==> Awaited(s, g);
      forall i | 0 <= i < |s'.threads| ensures Ready(s', s'.threads[i]) {
        assert Ready(s, s.threads[i]);
      }
    } else {
      assert !Holds(s.threads[tid]) && s'.h == s.h && s'.phase == s.phase;
      forall i | 0 <= i < |s'.threads| ensures Ready(s', s'.threads[i]) {
        assert i != tid ==> s'.threads[i] == s.threads[i] && Ready(s, s.threads[i]);
      }
    }
  }

  /** Close has begun, and until it is through its listeners every awaited save is unblockable. */
  ghost predicate OnCourse(s: State) {
    !s.phase.NotClosing? && (QueueDrained(s.phase) || AllReady(s))
  }

  lemma StaysOnCourse(s: State, l: Label, s': State)
    requires Inv(s) && OnCourse(s) && ThreadMove(l) && Step(s, l) == Some(s')
    ensures OnCourse(s')
  {
    if QueueDrained(s.phase) {
      DrainedStaysDrained(s, l, s');
    } else {
      match l {
        case CallMove(tid, generated) =>
          var key, pc, pc' := CallStepEffect(s, tid, generated, s');
          ReadyCall(s, tid, key, pc, pc', s');
        case FetcherMove(tid, ok) => ReadyFetcher(s, tid, ok, s');
        case SaverMove(tid, ok) => ReadySaver(s, tid, ok, s');
        case CloserMove(tid, key) => ReadyCloser(s, tid, key, s');
      }
    }
  }

  lemma DrainedStaysDrained(s: State, l: Label, s': State)
    requires Inv(s) && QueueDrained(s.phase) && ThreadMove(l) && Step(s, l) == Some(s')
    ensures QueueDrained(s'.phase)
  {
    if l.CloserMove? && s.threads[l.thread].closing.Rechecking? {
      assert Holds(s.threads[l.thread]) && !Busy(s.phase);
    }
  }

  lemma {:induction false} RunStaysOnCourse(s: State, run: seq<Label>, s': State)
    requires Inv(s) && OnCourse(s) && OnlyMoves(run) && Leads(s, run, s')
    ensures Inv(s') && OnCourse(s')
    decreases |run|
  {
    if run != [] {
      var s1 := Step(s, run[0]).value;
      InvStep(s, run[0], s1);
      StaysOnCourse(s, run[0], s1);
      RunStaysOnCourse(s1, run[1..], s');
    }
  }

  /** The label with which a thread goes on. */
  function MoveOf(t: Thread, tid: nat): Label {
    if t.Closer? then CloserMove(tid, SaveStmt)
    else if CallOf(t).Some? && !CallOf(t).value.1.Answered? then CallMove(tid, None)
    else if t.Fetcher? then FetcherMove(tid, true)
    else SaverMove(tid, true)
  }

  lemma UnfinishedCanMove(s: State, i: nat)
    requires i < |s.threads| && !Finished(s.threads[i]) && s.threads[i] != Closer(Active)
    requires InGroup(s.threads[i]) ==> s.threads[i].group.value in s.groups
    requires s.mutex.None? || Holds(s.threads[i])
    ensures ThreadMove(MoveOf(s.threads[i], i))
    ensures Step(s, MoveOf(s.threads[i], i)).Some? || Crashes(s, MoveOf(s.threads[i], i))
  {
  }

  lemma UnblockableCanMove(s: State, i: nat)
    requires i < |s.threads| && s.threads[i].Saver? && !s.threads[i].saving.Gone?
    requires Unblockable(s.h.stmts, s.threads[i].saving)
    ensures ThreadMove(MoveOf(s.threads[i], i)) && Step(s, MoveOf(s.threads[i], i)).Some?
  {
  }

  /** An active Close can go on unless it waits for a pending save. */
  lemma ActiveCanMove(s: State, tid: nat) returns (key: StmtKey)
    requires Inv(s) && Busy(s.phase) && s.mutex == Some(tid)
    requires s.phase.Waiting? ==> s.phase.group in s.groups && s.groups[s.phase.group].pending == 0
    ensures CloserStep(s, tid, key).Some?
  {
    assert s.threads[tid] == Closer(Active);
    if s.phase.ClosingStmts? && s.phase.todo != {} {
      key :| key in s.phase.todo;
    } else {
      key := SaveStmt;
    }
  }

  lemma WaitedForInGroups(s: State)
    requires Inv(s) && s.phase.Waiting?
    ensures s.phase.group in s.groups
  {
    assert WaitFor(s.phase.group) in Current(s.phase);
    assert WaitFor(s.phase.group) in s.h.accepted;
  }

  lemma PendingSaveExists(s: State, g: nat) returns (i: nat)
    requires Counts(s) && g in s.groups && s.groups[g].pending != 0
    ensures i < |s.threads| && IsPending(s.threads[i], g)
  {
    if forall k | 0 <= k < |s.threads| :: PendingWeight(g)(s.threads[k]) == 0 {
      SumZero(s.threads, PendingWeight(g));
    }
    i :| 0 <= i < |s.threads| && PendingWeight(g)(s.threads[i]) != 0;
  }

  /** A thread that Close needs: the active closer itself, or a pending save of the group it waits for. */
  predicate Needed(s: State, i: nat) {
    i < |s.threads| && (s.threads[i].Closer? || (s.phase.Waiting? && IsPending(s.threads[i], s.phase.group)))
  }

  function ThreadOf(l: Label): nat
    requires ThreadMove(l)
  {
    match l
    case CallMove(tid, _) => tid
    case FetcherMove(tid, _) => tid
    case SaverMove(tid, _) => tid
    case CloserMove(tid, _) => tid
  }

  /** A Close that waits for a group leaves a pending save of the group able to move, or can move itself. */
  lemma BusyCanMove(s: State) returns (l: Label)
    requires Inv(s) && OnCourse(s) && Busy(s.phase)
    ensures ThreadMove(l) && Step(s, l).Some? && Needed(s, ThreadOf(l))
  {
    if s.phase.Waiting? {
      WaitedForInGroups(s);
    }
    if s.phase.Waiting? && s.groups[s.phase.group].pending != 0 {
      var i := PendingSaveExists(s, s.phase.group);
      assert Ready(s, s.threads[i]);
      UnblockableCanMove(s, i);
      l := MoveOf(s.threads[i], i);
    } else {
      var key := ActiveCanMove(s, s.mutex.value);
      l := CloserMove(s.mutex.value, key);
    }
  }

  /** On course, some thread can move or crash until the shutdown is finished. */
  lemma OnCourseCanMove(s: State) returns (l: Label)
    requires Inv(s) && OnCourse(s)
    requires !s.phase.Closed? || exists i | 0 <= i < |s.threads| :: !Finished(s.threads[i])
    ensures ThreadMove(l) && (Step(s, l).Some? || Crashes(s, l))
    ensures Busy(s.phase) ==> Step(s, l).Some?
  {
    if Busy(s.phase) {
      l := BusyCanMove(s);
    } else {
      var i :| 0 <= i < |s.threads| && !Finished(s.threads[i]);
      var j := if s.mutex.Some? then s.mutex.value else i;
      UnfinishedCanMove(s, j);
      l := MoveOf(s.threads[j], j);
    }
  }

  /** On course, what is stuck has closed the handle, and has finished but for a thread about to crash. */
  lemma StuckOnCourse(s: State)
    requires Inv(s) && OnCourse(s) && Stuck(s)
    ensures s.phase.Closed? && (CanCrash(s) || forall i | 0 <= i < |s.threads| :: Finished(s.threads[i]))
  {
    if !s.phase.Closed? || exists i | 0 <= i < |s.threads| :: !Finished(s.threads[i]) {
      var l := OnCourseCanMove(s);
    }
  }

  /** Shutdown progress: if every awaited save is unblockable when Close has the mutex, then however the threads are
      scheduled Close completes and every listener has run, and every thread is done unless one is about to crash. */
  lemma ReadyShutdownCompletes(history: seq<Label>, s: State, run: seq<Label>, s': State)
    requires Leads(INITIAL, history, s) && s.phase.Stopping? && AllReady(s)
    requires OnlyMoves(run) && Leads(s, run, s') && Stuck(s')
    ensures s'.h.closed && s'.h.ran == s'.h.accepted
    ensures CanCrash(s') || forall i | 0 <= i < |s'.threads| :: Finished(s'.threads[i])
    ensures |run| <= TotalEffort(s)
  {
    ReachableInv(history, s);
    RunStaysOnCourse(s, run, s');
    StuckOnCourse(s');
    MovesAreBounded(s, run, s');
  }

  // ---- When it does not ----

  /** A counted save waits for the mutex that Close holds while Close waits, or will wait, for the save. */
  ghost predicate Deadlocked(s: State, i: nat, g: nat) {
    && AmongListeners(s.phase) && Awaited(s, g) && g !in s.waited
    && i < |s.threads| && s.threads[i].Saver? && s.threads[i].group == Some(g)
    && s.threads[i].saving.Calling? && s.threads[i].saving.call.WantLock?
  }

  /** What Close waits for while it goes through its listeners. */
  lemma ListenAwaits(s: State, s': State, g: nat)
    requires ListenStep(s) == Some(s')
    ensures Awaited(s', g) ==> Awaited(s, g)
    ensures s.waited <= s'.waited
    ensures Awaited(s, g) ==> Awaited(s', g) || s.phase == Waiting(g) || (g in s.groups && s.groups[g].closed)
  {
    if s.phase.Draining? && s.h.listeners != [] {
      assert s.h.listeners == [s.h.listeners[0]] + s.h.listeners[1..];
    }
  }

  /** Close goes on waiting for a group with a pending save. */
  lemma PendingStaysAwaited(s: State, s': State, i: nat, g: nat)
    requires GroupInv(s) && ListenStep(s) == Some(s') && i < |s.threads| && IsPending(s.threads[i], g)
    requires Awaited(s, g) && g !in s.waited
    ensures Awaited(s', g) && g !in s'.waited && !QueueDrained(s'.phase)
  {
    SumCovers(s.threads, i, PendingWeight(g));
    ListenAwaits(s, s', g);
    assert g in s.groups ==> s.groups[g].pending != 0 && !s.groups[g].closed;
    assert s.phase == Waiting(g) ==> false;
  }

  lemma DeadlockedListen(s: State, s': State, i: nat, g: nat)
    requires Inv(s) && Deadlocked(s, i, g) && ListenStep(s) == Some(s')
    ensures Deadlocked(s', i, g)
  {
    assert s'.threads == s.threads && IsPending(s.threads[i], g);
    PendingStaysAwaited(s, s', i, g);
  }

  /** While Close holds the mutex another call of Close gets no further than its first check. */
  lemma OtherCloserIdles(s: State, tid: nat, key: StmtKey, s': State)
    requires MutexInv(s) && Busy(s.phase) && CloserStep(s, tid, key) == Some(s') && !s.threads[tid].closing.Active?
    ensures s' == s.(threads := s'.threads) && |s'.threads| == |s.threads|
    ensures forall i | 0 <= i < |s.threads| && !s.threads[i].Closer? :: s'.threads[i] == s.threads[i]
  {
    assert !Holds(s.threads[tid]);
  }

  lemma DeadlockedCloser(s: State, tid: nat, key: StmtKey, s': State, i: nat, g: nat)
    requires Inv(s) && Deadlocked(s, i, g) && CloserStep(s, tid, key) == Some(s')
    ensures Deadlocked(s', i, g)
  {
    if s.threads[tid].closing.Active? {
      DeadlockedListen(s, s', i, g);
    } else {
      OtherCloserIdles(s, tid, key, s');
    }
  }

  /** A deadlock is for ever: no step of any thread, and no new thread, resolves it. */
  lemma DeadlockIsFinal(s: State, l: Label, s': State, i: nat, g: nat)
    requires Inv(s) && Deadlocked(s, i, g) && Step(s, l) == Some(s')
    ensures Deadlocked(s', i, g)
  {
    match l {
      case CallMove(tid, generated) =>
        var key, pc, pc' := CallStepEffect(s, tid, generated, s');
        assert !pc.WantLock?;
        assert Holds(s.threads[tid]) ==> s.mutex == Some(tid);
      case FetcherMove(tid, ok) =>
        var t := FetcherStepEffect(s, tid, ok, s');
        assert tid != i;
      case SaverMove(tid, ok) =>
        assert tid != i;
      case CloserMove(tid, key) => DeadlockedCloser(s, tid, key, s', i, g);
      case _ => DeadlockedSpawn(s, l, s', i, g);
    }
  }

  lemma DeadlockedSpawn(s: State, l: Label, s': State, i: nat, g: nat)
    requires Deadlocked(s, i, g) && SpawnStep(s, l) == Some(s')
    ensures Deadlocked(s', i, g)
  {
  }

  lemma {:induction false} RunStaysDeadlocked(s: State, run: seq<Label>, s': State, i: nat, g: nat)
    requires Inv(s) && Deadlocked(s, i, g) && Leads(s, run, s')
    ensures Deadlocked(s', i, g)
    decreases |run|
  {
    if run != [] {
      var s1 := Step(s, run[0]).value;
      InvStep(s, run[0], s1);
      DeadlockIsFinal(s, run[0], s1, i, g);
      RunStaysDeadlocked(s1, run[1..], s', i, g);
    }
  }

  /** Thread `i` can come to ask for the mutex as a save of group `g`. */
  predicate Blocks(s: State, i: nat, g: nat) {
    i < |s.threads| &&
    match s.threads[i]
    case Saver(group, _, saving) => group == Some(g) && !Unblockable(s.h.stmts, saving)
    case Fetcher(group, fetching) => group == Some(g) && Passable(s.h.stmts, fetching) && !SaveCached(s.h.stmts)
    case _ => false
  }

  predicate AtLock(t: Thread) {
    t.Saver? && t.saving.Calling? && t.saving.call.WantLock?
  }

  lemma BlockableCallMoves(s: State, i: nat, g: nat, key: StmtKey, pc: CallPc, pc': CallPc, s': State)
    requires Blocks(s, i, g) && !AtLock(s.threads[i]) && !Holds(s.threads[i]) && CallEffect(s, i, key, pc, pc', s')
    ensures s'.h == s.h && s'.phase == s.phase && Blocks(s', i, g)
  {
  }

  /** What such a thread does on its own while Close holds the mutex. */
  lemma BlockableMoves(s: State, i: nat, g: nat) returns (l: Label, s': State)
    requires Inv(s) && s.phase.Stopping? && Blocks(s, i, g) && !AtLock(s.threads[i])
    ensures ThreadMove(l) && Step(s, l) == Some(s')
    ensures s'.h == s.h && s'.phase == s.phase && Blocks(s', i, g)
  {
    assert !Holds(s.threads[i]);
    assert InGroup(s.threads[i]);
    l := MoveOf(s.threads[i], i);
    s' := Step(s, l).value;
    if l.CallMove? {
      var key, pc, pc' := CallStepEffect(s, i, None, s');
      BlockableCallMoves(s, i, g, key, pc, pc', s');
    }
  }

  lemma StepThenRun(s: State, l: Label, m: State, rest: seq<Label>, s': State)
    requires Step(s, l) == Some(m) && Leads(m, rest, s')
    requires ThreadMove(l) && OnlyMoves(rest)
    ensures Leads(s, [l] + rest, s') && OnlyMoves([l] + rest)
  {
    assert ([l] + rest)[1..] == rest;
  }

  lemma AtLockIsDeadlocked(s: State, i: nat, g: nat)
    requires Inv(s) && s.phase.Stopping? && Awaited(s, g)
    requires i < |s.threads| && s.threads[i].Saver? && s.threads[i].group == Some(g)
    requires s.threads[i].saving.Calling? && s.threads[i].saving.call.WantLock?
    ensures Deadlocked(s, i, g)
  {
    assert Waits(s);
  }

  lemma DeadlockedIsOpen(s: State, i: nat, g: nat)
    requires LifeInv(s.h, s.phase) && Deadlocked(s, i, g)
    ensures !s.h.closed
  {
  }

  lemma MoveKeepsInv(s: State, l: Label, s': State)
    requires Inv(s) && ThreadMove(l) && Step(s, l) == Some(s')
    ensures Inv(s') && TotalEffort(s') < TotalEffort(s)
  {
    InvStep(s, l, s');
    EffortStep(s, l, s');
  }

  lemma {:induction false} DriveToLock(s: State, i: nat, g: nat) returns (run: seq<Label>, s': State)
    requires Inv(s) && s.phase.Stopping? && Awaited(s, g) && Blocks(s, i, g)
    ensures OnlyMoves(run) && Leads(s, run, s') && Inv(s') && Deadlocked(s', i, g)
    decreases TotalEffort(s)
  {
    if AtLock(s.threads[i]) {
      run, s' := [], s;
      AtLockIsDeadlocked(s, i, g);
    } else {
      var l, m := BlockableMoves(s, i, g);
      MoveKeepsInv(s, l, m);
      var rest;
      rest, s' := DriveToLock(m, i, g);
      run := [l] + rest;
      StepThenRun(s, l, m, rest, s');
    }
  }

  lemma {:induction false} LeadsOn(s: State, first: seq<Label>, m: State, second: seq<Label>, s': State)
    requires Leads(s, first, m) && Leads(m, second, s')
    ensures Leads(s, first + second, s')
    decreases |first|
  {
    if first == [] {
      assert first + second == second;
    } else {
      LeadsOn(Step(s, first[0]).value, first[1..], m, second, s');
      assert (first + second)[1..] == first[1..] + second;
    }
  }

  lemma DeadlockedRun(s: State, i: nat, g: nat) returns (run: seq<Label>, s': State)
    requires Inv(s) && Deadlocked(s, i, g)
    ensures OnlyMoves(run) && Leads(s, run, s') && Stuck(s') && !s'.h.closed
  {
    run, s' := MaximalRun(s);
    RunKeepsInv(s, run, s');
    RunStaysDeadlocked(s, run, s', i, g);
    DeadlockedIsOpen(s', i, g);
  }

  lemma BlockerExists(s: State) returns (i: nat, g: nat)
    requires !AllReady(s)
    ensures Awaited(s, g) && Blocks(s, i, g)
  {
    i :| i < |s.threads| && !Ready(s, s.threads[i]);
    g := s.threads[i].group.value;
  }

  /** If some save or fetch can block a Close that waits for its group, the threads can be scheduled into a deadlock. */
  lemma BlockableShutdownCanHang(history: seq<Label>, s: State) returns (run: seq<Label>, s': State)
    requires Leads(INITIAL, history, s) && s.phase.Stopping? && !AllReady(s)
    ensures OnlyMoves(run) && Leads(s, run, s') && Stuck(s') && !s'.h.closed
  {
    ReachableInv(history, s);
    var i, g := BlockerExists(s);
    var first, m := DriveToLock(s, i, g);
    var second;
    second, s' := DeadlockedRun(m, i, g);
    run := first + second;
    LeadsOn(s, first, m, second, s');
  }

  /** Exactly when shutdown is sure to complete: all schedules complete it if and only if every awaited save is
      unblockable at the moment Close has the mutex. */
  lemma ShutdownCompletesExactlyWhenReady(history: seq<Label>, s: State)
    requires Leads(INITIAL, history, s) && s.phase.Stopping?
    ensures AllReady(s) <==> forall run, s' | OnlyMoves(run) && Leads(s, run, s') && Stuck(s') :: s'.h.closed
  {
    if AllReady(s) {
      forall run, s' | OnlyMoves(run) && Leads(s, run, s') && Stuck(s') ensures s'.h.closed {
        ReadyShutdownCompletes(history, s, run, s');
      }
    } else {
      var run, s' := BlockableShutdownCanHang(history, s);
      assert OnlyMoves(run) && Leads(s, run, s') && Stuck(s');
    }
  }

  // ---- When no thread crashes ----

  /** A call that may still come to its generator. */
  predicate MayGenerate(call: CallPc) {
    call.FastRead? || call.WantLock? || call.Recheck? || call.Generate?
  }

  /** A thread that may have a statement still to look up, for itself or for the save it turns into. */
  predicate LooksUp(t: Thread) {
    match t
    case Lookup(_, call) => MayGenerate(call)
    case Fetcher(_, Asking(_, call)) => call != Unlocking(None) && call != Answered(None)
    case Fetcher(_, fetching) => !fetching.Ended?
    case Saver(_, _, Starting) => true
    case Saver(_, _, Calling(First, call)) => call != Unlocking(None) && call != Answered(None)
    case Saver(_, _, Executing(First)) => true
    case Saver(_, _, Calling(Second, call)) => MayGenerate(call)
    case _ => false
  }

  predicate AwaitedSave(s: State, t: Thread) {
    t.Saver? && t.group.Some? && Awaited(s, t.group.value)
  }

  /** A thread that Close does not wait for and that has a statement still to look up. */
  predicate Exposed(s: State, t: Thread) {
    LooksUp(t) && !AwaitedSave(s, t)
  }

  /** To be read off the moment Close has the mutex, like AllReady. */
  ghost predicate NoneExposed(s: State) {
    forall i | 0 <= i < |s.threads| :: !Exposed(s, s.threads[i])
  }

  /** Whoever has a statement still to look up is a save whose group Close has yet to wait for. */
  ghost predicate Quiet(s: State) {
    forall i | 0 <= i < |s.threads| && LooksUp(s.threads[i]) ::
      AwaitedSave(s, s.threads[i]) && s.threads[i].group.value !in s.waited
  }

  lemma CallLooksUpLess(s: State, tid: nat, key: StmtKey, pc: CallPc, pc': CallPc, s': State, i: nat)
    requires CallEffect(s, tid, key, pc, pc', s') && i < |s.threads|
    ensures LooksUp(s'.threads[i]) ==> LooksUp(s.threads[i])
    ensures s.threads[i].Saver? ==> s'.threads[i].Saver? && s'.threads[i].group == s.threads[i].group
  {
  }

  /** The moves of a thread never make it look up more. */
  lemma LookingUpEnds(s: State, l: Label, s': State, i: nat)
    requires ThreadMove(l) && Step(s, l) == Some(s') && i < |s.threads|
    ensures |s'.threads| == |s.threads|
    ensures LooksUp(s'.threads[i]) ==> LooksUp(s.threads[i])
    ensures s.threads[i].Saver? ==> s'.threads[i].Saver? && s'.threads[i].group == s.threads[i].group
  {
    if l.CallMove? {
      var key, pc, pc' := CallStepEffect(s, l.thread, l.generated, s');
      CallLooksUpLess(s, l.thread, key, pc, pc', s', i);
    }
  }

  lemma CloserAwaits(s: State, tid: nat, key: StmtKey, s': State, g: nat)
    requires CloserStep(s, tid, key) == Some(s') && !s.phase.NotClosing?
    ensures Awaited(s', g) ==> Awaited(s, g)
    ensures s.waited <= s'.waited
  {
    if s.threads[tid].closing.Active? && !QueueDrained(s.phase) {
      ListenAwaits(s, s', g);
    }
  }

  /** Close waits for fewer and fewer groups. */
  lemma AwaitedShrinks(s: State, l: Label, s': State, g: nat)
    requires ThreadMove(l) && Step(s, l) == Some(s') && (l.CloserMove? ==> !s.phase.NotClosing?)
    ensures Awaited(s', g) ==> Awaited(s, g)
    ensures s.waited <= s'.waited
  {
    if l.CloserMove? {
      CloserAwaits(s, l.thread, l.key, s', g);
    } else if l.CallMove? {
      var key, pc, pc' := CallStepEffect(s, l.thread, l.generated, s');
    } else {
      assert s'.h == s.h && s'.phase == s.phase && s'.waited == s.waited;
    }
  }

  lemma QuietListen(s: State, s': State, i: nat)
    requires Inv(s) && ListenStep(s) == Some(s') && i < |s.threads|
    requires LooksUp(s.threads[i]) && AwaitedSave(s, s.threads[i]) && s.threads[i].group.value !in s.waited
    ensures AwaitedSave(s', s.threads[i]) && s.threads[i].group.value !in s'.waited
  {
    PendingStaysAwaited(s, s', i, s.threads[i].group.value);
  }

  lemma NoneAwaitedOnceDrained(s: State, g: nat)
    requires LifeInv(s.h, s.phase) && QueueDrained(s.phase)
    ensures !Awaited(s, g)
  {
  }

  lemma QuietOnceDrained(s: State)
    requires LifeInv(s.h, s.phase) && QueueDrained(s.phase) && Quiet(s)
    ensures forall i | 0 <= i < |s.threads| :: !LooksUp(s.threads[i])
  {
    forall g: nat ensures !Awaited(s, g) {
      NoneAwaitedOnceDrained(s, g);
    }
  }

  lemma QuietCloser(s: State, tid: nat, key: StmtKey, s': State)
    requires Inv(s) && !s.phase.NotClosing? && Quiet(s) && CloserStep(s, tid, key) == Some(s')
    ensures Quiet(s')
  {
    forall i | 0 <= i < |s'.threads| ensures LooksUp(s'.threads[i]) ==> s'.threads[i] == s.threads[i] {
      LookingUpEnds(s, CloserMove(tid, key), s', i);
    }
    if QueueDrained(s.phase) {
      QuietOnceDrained(s);
    } else {
      assert Busy(s.phase);
      forall i | 0 <= i < |s'.threads| && LooksUp(s'.threads[i])
        ensures AwaitedSave(s', s'.threads[i]) && s'.threads[i].group.value !in s'.waited
      {
        if s.threads[tid].closing.Active? {
          QuietListen(s, s', i);
        } else {
          OtherCloserIdles(s, tid, key, s');
        }
      }
    }
  }

  lemma StaysQuiet(s: State, l: Label, s': State)
    requires Inv(s) && !s.phase.NotClosing? && Quiet(s) && ThreadMove(l) && Step(s, l) == Some(s')
    ensures Quiet(s')
  {
    if l.CloserMove? {
      QuietCloser(s, l.thread, l.key, s');
    } else {
      assert s'.phase == s.phase && s'.waited == s.waited && s'.h.listeners == s.h.listeners;
      forall i | 0 <= i < |s'.threads| && LooksUp(s'.threads[i])
        ensures AwaitedSave(s', s'.threads[i]) && s'.threads[i].group.value !in s'.waited
      {
        LookingUpEnds(s, l, s', i);
      }
    }
  }

  lemma QuietDoesNotCrash(s: State)
    requires Inv(s) && Quiet(s)
    ensures !CanCrash(s)
  {
    if s.phase.Closed? {
      QuietOnceDrained(s);
    }
    forall l: Label ensures !Crashes(s, l) {
      if Crashes(s, l) {
        NilDatabaseMeansClosed(s, l.thread);
      }
    }
  }

  lemma {:induction false} RunStaysQuiet(s: State, run: seq<Label>, s': State)
    requires Inv(s) && !s.phase.NotClosing? && Quiet(s) && OnlyMoves(run) && Leads(s, run, s')
    ensures Quiet(s') && !CanCrash(s')
    decreases |run|
  {
    if run == [] {
      QuietDoesNotCrash(s);
    } else {
      var m := Step(s, run[0]).value;
      InvStep(s, run[0], m);
      StaysQuiet(s, run[0], m);
      NeverUnclosing(s, run[0], m);
      RunStaysQuiet(m, run[1..], s');
    }
  }

  lemma NeverUnclosing(s: State, l: Label, s': State)
    requires Inv(s) && !s.phase.NotClosing? && Step(s, l) == Some(s')
    ensures !s'.phase.NotClosing?
  {
    match l {
      case CallMove(tid, generated) =>
        var key, pc, pc' := CallStepEffect(s, tid, generated, s');
      case CloserMove(tid, key) =>
        if s.threads[tid].closing.Active? && s.phase != Marking {
          ActiveChangesPhase(s, key, s');
        } else {
          var t := OutsideStep(s, tid, key, s');
        }
      case _ => AsideStep(s, l, s');
    }
  }

  /** A clean shutdown: if moreover no other thread has a statement still to look up, then no thread ever comes to the
      missing database, and when the threads come to rest every one is done. */
  lemma QuietShutdownIsClean(history: seq<Label>, s: State, run: seq<Label>, s': State)
    requires Leads(INITIAL, history, s) && s.phase.Stopping? && AllReady(s) && NoneExposed(s)
    requires OnlyMoves(run) && Leads(s, run, s')
    ensures !CanCrash(s')
    ensures Stuck(s') ==> s'.h.closed && forall i | 0 <= i < |s'.threads| :: Finished(s'.threads[i])
  {
    ReachableInv(history, s);
    assert Waits(s);
    forall i | 0 <= i < |s.threads| && LooksUp(s.threads[i])
      ensures AwaitedSave(s, s.threads[i]) && s.threads[i].group.value !in s.waited
    {
      assert !Exposed(s, s.threads[i]);
    }
    RunStaysQuiet(s, run, s');
    if Stuck(s') {
      ReadyShutdownCompletes(history, s, run, s');
    }
  }

  // ---- When some thread can ----

  /** An exposed thread is not needed by Close, and stays exposed while others move. */
  lemma ExposedWaits(s: State, i: nat, l: Label, s': State)
    requires i < |s.threads| && Exposed(s, s.threads[i]) && Busy(s.phase)
    requires ThreadMove(l) && Step(s, l) == Some(s') && Needed(s, ThreadOf(l))
    ensures i < |s'.threads| && Exposed(s', s'.threads[i])
  {
    assert !Needed(s, i);
    assert |s'.threads| == |s.threads| && s'.threads[i] == s.threads[i];
    if s.threads[i].Saver? && s.threads[i].group.Some? {
      AwaitedShrinks(s, l, s', s.threads[i].group.value);
    }
  }

  /** Close can run to its end while an exposed thread stays where it is. */
  lemma {:induction false} CloseAround(s: State, i: nat) returns (run: seq<Label>, s': State)
    requires Inv(s) && OnCourse(s) && i < |s.threads| && Exposed(s, s.threads[i])
    ensures OnlyMoves(run) && Leads(s, run, s') && Inv(s') && s'.phase.Closed?
    ensures i < |s'.threads| && LooksUp(s'.threads[i])
    decreases TotalEffort(s)
  {
    if s.phase.Closed? {
      run, s' := [], s;
    } else {
      var l := BusyCanMove(s);
      var m := Step(s, l).value;
      MoveKeepsInv(s, l, m);
      StaysOnCourse(s, l, m);
      ExposedWaits(s, i, l, m);
      var rest;
      rest, s' := CloseAround(m, i);
      run := [l] + rest;
      StepThenRun(s, l, m, rest, s');
    }
  }

  lemma LateCallMoves(s: State, i: nat, key: StmtKey, pc: CallPc, pc': CallPc, s': State)
    requires Inv(s) && s.phase.Closed? && i < |s.threads| && LooksUp(s.threads[i])
    requires CallEffect(s, i, key, pc, pc', s') && !AtNilDatabase(s, i)
    ensures s'.phase.Closed? && LooksUp(s'.threads[i])
  {
    assert s.h.stmts == map[];
    assert pc.Recheck? ==> pc' == Generate;
  }

  /** With the handle closed, a thread that has a statement to look up gets ever closer to its generator. */
  lemma LateLookupMoves(s: State, i: nat, s': State)
    requires Inv(s) && s.phase.Closed? && i < |s.threads| && LooksUp(s.threads[i])
    requires Step(s, MoveOf(s.threads[i], i)) == Some(s')
    ensures s'.phase.Closed? && i < |s'.threads| && LooksUp(s'.threads[i])
  {
    if MoveOf(s.threads[i], i).CallMove? {
      var key, pc, pc' := CallStepEffect(s, i, None, s');
      LateCallMoves(s, i, key, pc, pc', s');
    } else {
      assert s'.phase == s.phase;
    }
  }

  /** Another call of Close finds the handle closed. */
  lemma LateCloserMoves(s: State, j: nat, s': State) returns (t: Thread)
    requires MutexInv(s) && LifeInv(s.h, s.phase) && s.phase.Closed? && CloserStep(s, j, SaveStmt) == Some(s')
    ensures s'.phase.Closed? && s'.threads == s.threads[j := t]
  {
    assert s.threads[j] != Closer(Active);
    t := OutsideStep(s, j, SaveStmt, s');
  }

  lemma OthersMove(s: State, j: nat, s': State, i: nat)
    requires Inv(s) && s.phase.Closed? && i < |s.threads| && j < |s.threads| && j != i
    requires Step(s, MoveOf(s.threads[j], j)) == Some(s')
    ensures s'.phase.Closed? && i < |s'.threads| && s'.threads[i] == s.threads[i]
  {
    if s.threads[j].Closer? {
      var t := LateCloserMoves(s, j, s');
    } else if MoveOf(s.threads[j], j).CallMove? {
      var key, pc, pc' := CallStepEffect(s, j, None, s');
    } else {
      AsideStep(s, MoveOf(s.threads[j], j), s');
      assert s'.threads[i] == s.threads[i];
    }
  }

  lemma {:induction false} LateLookupCrashes(s: State, i: nat) returns (run: seq<Label>, s': State)
    requires Inv(s) && s.phase.Closed? && i < |s.threads| && LooksUp(s.threads[i])
    ensures OnlyMoves(run) && Leads(s, run, s') && CanCrash(s')
    decreases TotalEffort(s)
  {
    var j := if s.mutex.Some? then s.mutex.value else i;
    UnfinishedCanMove(s, j);
    var l := MoveOf(s.threads[j], j);
    if Crashes(s, l) {
      run, s' := [], s;
    } else {
      var m := Step(s, l).value;
      MoveKeepsInv(s, l, m);
      if j == i {
        LateLookupMoves(s, i, m);
      } else {
        OthersMove(s, j, m, i);
      }
      var rest;
      rest, s' := LateLookupCrashes(m, i);
      run := [l] + rest;
      StepThenRun(s, l, m, rest, s');
    }
  }

  /** If another thread has a statement still to look up, the threads can be scheduled so that it looks it up on the closed
      handle and crashes. */
  lemma ExposedShutdownCanCrash(history: seq<Label>, s: State) returns (run: seq<Label>, s': State)
    requires Leads(INITIAL, history, s) && s.phase.Stopping? && AllReady(s) && !NoneExposed(s)
    ensures OnlyMoves(run) && Leads(s, run, s') && CanCrash(s')
  {
    ReachableInv(history, s);
    var i :| 0 <= i < |s.threads| && Exposed(s, s.threads[i]);
    var first, m := CloseAround(s, i);
    var second;
    second, s' := LateLookupCrashes(m, i);
    run := first + second;
    LeadsOn(s, first, m, second, s');
  }

  lemma UnquietShutdownGoesWrong(history: seq<Label>, s: State) returns (run: seq<Label>, s': State)
    requires Leads(INITIAL, history, s) && s.phase.Stopping? && !(AllReady(s) && NoneExposed(s))
    ensures OnlyMoves(run) && Leads(s, run, s') && (CanCrash(s') || (Stuck(s') && !s'.h.closed))
  {
    if AllReady(s) {
      run, s' := ExposedShutdownCanCrash(history, s);
    } else {
      run, s' := BlockableShutdownCanHang(history, s);
    }
  }

  /** Exactly when a shutdown is sure to be clean: no schedule brings a thread to the missing database or comes to rest
      before Close has completed if and only if, at the moment Close has the mutex, every awaited save is unblockable and
      no other thread has a statement still to look up. */
  lemma ShutdownCleanExactlyWhenQuiet(history: seq<Label>, s: State)
    requires Leads(INITIAL, history, s) && s.phase.Stopping?
    ensures AllReady(s) && NoneExposed(s) <==>
            forall run, s' | OnlyMoves(run) && Leads(s, run, s') :: !CanCrash(s') && (Stuck(s') ==> s'.h.closed)
  {
    if !(AllReady(s) && NoneExposed(s)) {
      var run, s' := UnquietShutdownGoesWrong(history, s);
      assert OnlyMoves(run) && Leads(s, run, s');
    } else {
      forall run, s' | OnlyMoves(run) && Leads(s, run, s') ensures !CanCrash(s') && (Stuck(s') ==> s'.h.closed) {
        QuietShutdownIsClean(history, s, run, s');
      }
    }
  }

  // ---- New threads during shutdown ----

  /** Whatever fetch comes to a save of a group that Close waits for, the save finds its statements cached. */
  ghost predicate KeysSuffice(s: State) {
    FetchCached(s.h.stmts) && (exists g :: Awaited(s, g)) ==> SaveCached(s.h.stmts)
  }

  ghost predicate KeyedCourse(s: State) {
    OnCourse(s) && (QueueDrained(s.phase) || KeysSuffice(s))
  }

  lemma NewThreadIsReady(s: State, l: Label, s': State)
    requires Inv(s) && AmongListeners(s.phase) && KeysSuffice(s) && SpawnStep(s, l) == Some(s')
    requires |s'.threads| == |s.threads| + 1
    ensures Ready(s', s'.threads[|s.threads|])
  {
    if l.StartFetch? && l.counted.Some? && Awaited(s', l.counted.value) {
      assert Awaited(s, l.counted.value);
    }
  }

  lemma SpawnStaysKeyed(s: State, l: Label, s': State)
    requires Inv(s) && KeyedCourse(s) && SpawnStep(s, l) == Some(s')
    ensures KeyedCourse(s')
  {
    assert s'.phase == s.phase && s'.h.stmts == s.h.stmts;
    if !QueueDrained(s.phase) {
      assert s'.h == s.h;
      forall g: nat | Awaited(s', g) ensures Awaited(s, g) {
      }
      forall i | 0 <= i < |s'.threads| ensures Ready(s', s'.threads[i]) {
        if i < |s.threads| {
          assert s'.threads[i] == s.threads[i] && Ready(s, s.threads[i]);
        } else {
          NewThreadIsReady(s, l, s');
        }
      }
    }
  }

  lemma MoveKeepsStatements(s: State, l: Label, s': State)
    requires Inv(s) && AmongListeners(s.phase) && ThreadMove(l) && Step(s, l) == Some(s')
    ensures s'.h.stmts == s.h.stmts
  {
    match l {
      case CallMove(tid, generated) =>
        var key, pc, pc' := CallStepEffect(s, tid, generated, s');
        assert !Holds(s.threads[tid]);
      case CloserMove(tid, key) =>
        if s.threads[tid].closing.Active? {
          ListenKeepsCache(s, s');
        } else {
          OtherCloserIdles(s, tid, key, s');
        }
      case _ =>
    }
  }

  lemma MoveStaysKeyed(s: State, l: Label, s': State)
    requires Inv(s) && KeyedCourse(s) && ThreadMove(l) && Step(s, l) == Some(s')
    ensures KeyedCourse(s')
  {
    StaysOnCourse(s, l, s');
    if QueueDrained(s.phase) {
      DrainedStaysDrained(s, l, s');
    } else {
      MoveKeepsStatements(s, l, s');
      forall g | Awaited(s', g) ensures Awaited(s, g) {
        AwaitedShrinks(s, l, s', g);
      }
    }
  }

  lemma {:induction false} RunStaysKeyed(s: State, run: seq<Label>, s': State)
    requires Inv(s) && KeyedCourse(s) && Leads(s, run, s')
    ensures Inv(s') && KeyedCourse(s')
    decreases |run|
  {
    if run != [] {
      var m := Step(s, run[0]).value;
      InvStep(s, run[0], m);
      if ThreadMove(run[0]) {
        MoveStaysKeyed(s, run[0], m);
      } else {
        SpawnStaysKeyed(s, run[0], m);
      }
      RunStaysKeyed(m, run[1..], s');
    }
  }

  /** While the keys suffice threads may keep starting: whatever fetches, lookups and calls of Close join in while Close is
      at work, some thread can move in every state reached, until Close has completed and every thread is done or one is
      about to crash. */
  lemma NewThreadsDoNotBlockShutdown(history: seq<Label>, s: State, run: seq<Label>, s': State) returns (l: Label)
    requires Leads(INITIAL, history, s) && s.phase.Stopping? && AllReady(s) && KeysSuffice(s)
    requires Leads(s, run, s')
    requires !s'.h.closed || exists i | 0 <= i < |s'.threads| :: !Finished(s'.threads[i])
    ensures ThreadMove(l) && (Step(s', l).Some? || (s'.h.closed && Crashes(s', l)))
  {
    ReachableInv(history, s);
    RunStaysKeyed(s, run, s');
    l := OnCourseCanMove(s');
  }

  lemma AwaitedInGroups(s: State, g: nat)
    requires Inv(s) && Awaited(s, g)
    ensures g in s.groups
  {
    assert WaitFor(g) in s.h.accepted;
  }

  lemma SpawnThenRun(s: State, l: Label, m: State, rest: seq<Label>, s': State)
    requires Step(s, l) == Some(m) && Leads(m, rest, s')
    ensures Leads(s, [l] + rest, s')
  {
    assert ([l] + rest)[1..] == rest;
  }

  lemma AfterOneMore(history: seq<Label>, s: State, l: Label, m: State)
    requires Leads(INITIAL, history, s) && Step(s, l) == Some(m)
    ensures Leads(INITIAL, history + [l], m)
  {
    SpawnThenRun(s, l, m, [], m);
    assert [l] + [] == [l];
    LeadsOn(INITIAL, history, s, [l], m);
  }

  /** If they do not suffice, a fetch that starts now can hang the shutdown. */
  lemma NewFetchCanHang(history: seq<Label>, s: State) returns (run: seq<Label>, s': State)
    requires Leads(INITIAL, history, s) && s.phase.Stopping? && !KeysSuffice(s)
    ensures Leads(s, run, s') && Stuck(s') && !s'.h.closed
  {
    ReachableInv(history, s);
    var g :| Awaited(s, g);
    AwaitedInGroups(s, g);
    var l := StartFetch(Some(g));
    var m := Step(s, l).value;
    AfterOneMore(history, s, l, m);
    assert !Ready(m, m.threads[|s.threads|]);
    var rest;
    rest, s' := BlockableShutdownCanHang(history + [l], m);
    run := [l] + rest;
    SpawnThenRun(s, l, m, rest, s');
  }

  /** A schedule, with whatever threads start on the way, that comes to rest before Close has completed. */
  ghost predicate Hangs(s: State, run: seq<Label>, s': State) {
    Leads(s, run, s') && Stuck(s') && !s'.h.closed
  }

  /** Exactly when shutdown is sure to complete even while threads keep starting: no schedule hangs if and only if no
      thread blocks Close and the keys suffice. */
  lemma ShutdownCompletesWhateverStarts(history: seq<Label>, s: State)
    requires Leads(INITIAL, history, s) && s.phase.Stopping?
    ensures AllReady(s) && KeysSuffice(s) <==> forall run, s' :: !Hangs(s, run, s')
  {
    if !AllReady(s) {
      var run, s' := BlockableShutdownCanHang(history, s);
      assert Hangs(s, run, s');
    } else if !KeysSuffice(s) {
      var run, s' := NewFetchCanHang(history, s);
      assert Hangs(s, run, s');
    } else {
      forall run, s' ensures !Hangs(s, run, s') {
        if Hangs(s, run, s') {
          KeyedRunCloses(history, s, run, s');
        }
      }
    }
  }

  lemma KeyedRunCloses(history: seq<Label>, s: State, run: seq<Label>, s': State)
    requires Leads(INITIAL, history, s) && s.phase.Stopping? && AllReady(s) && KeysSuffice(s)
    requires Leads(s, run, s') && Stuck(s')
    ensures s'.h.closed
  {
    ReachableInv(history, s);
    RunStaysKeyed(s, run, s');
    StuckOnCourse(s');
  }

  /** No condition keeps a thread that starts during the shutdown from crashing: a lookup that starts now can come to its
      generator when the handle is closed. */
  lemma NewLookupCanCrash(history: seq<Label>, s: State) returns (run: seq<Label>, s': State)
    requires Leads(INITIAL, history, s) && s.phase.Stopping? && AllReady(s)
    ensures Leads(s, run, s') && CanCrash(s')
  {
    var l := StartLookup(SaveStmt);
    var m := Step(s, l).value;
    AfterOneMore(history, s, l, m);
    forall i | 0 <= i < |m.threads| ensures Ready(m, m.threads[i]) {
      assert i < |s.threads| ==> m.threads[i] == s.threads[i] && Ready(s, s.threads[i]);
    }
    assert Exposed(m, m.threads[|s.threads|]);
    var rest;
    rest, s' := ExposedShutdownCanCrash(history + [l], m);
    run := [l] + rest;
    SpawnThenRun(s, l, m, rest, s');
  }
}
