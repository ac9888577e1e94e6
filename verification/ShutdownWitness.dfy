/** Three runs: one in which shutdown hangs on a fetch that is in progress when Close takes the mutex, one in which it
    hangs although both statements of a save are cached by then, and one in which a save of a batch crashes on the
    closed handle. */
module ShutdownWitness {
  import opened Wrappers
  import opened Handles
  import opened Shutdown
  import opened ShutdownProgress

  lemma {:induction false} ThenStep(s: State, run: seq<Label>, m: State, l: Label, s': State)
    requires Leads(s, run, m) && Step(m, l) == Some(s')
    ensures Leads(s, run + [l], s')
  {
    assert [l][1..] == [];
    assert Leads(m, [l], s');
    LeadsOn(s, run, m, [l], s');
  }

  /** Everything but the threads and the cache is as it was, and the cache has at least what it had. */
  ghost predicate Undisturbed(s: State, s': State) {
    && s'.mutex.None? && s'.phase == s.phase && s'.groups == s.groups && s'.waited == s.waited
    && s'.h == s.h.(stmts := s'.h.stmts) && s.h.stmts.Keys <= s'.h.stmts.Keys
  }

  // ---- Threads running alone ----

  lemma TwoSteps(s: State, l1: Label, m: State, l2: Label, s': State)
    requires Step(s, l1) == Some(m) && Step(m, l2) == Some(s')
    ensures Leads(s, [l1, l2], s')
  {
    ThenStep(s, [], s, l1, m);
    ThenStep(s, [] + [l1], m, l2, s');
    assert [] + [l1] + [l2] == [l1, l2];
  }

  /** Only thread `tid` has moved in its call. */
  ghost predicate CallMoved(s: State, tid: nat, call: CallPc, s': State)
    requires tid < |s.threads| && CallOf(s.threads[tid]).Some?
  {
    && s'.threads == s.threads[tid := WithCall(s.threads[tid], call)]
    && s'.phase == s.phase && s'.groups == s.groups && s'.waited == s.waited
  }

  lemma CallLocks(s: State, tid: nat, key: StmtKey) returns (run: seq<Label>, s': State)
    requires s.mutex.None? && key !in s.h.stmts
    requires tid < |s.threads| && CallOf(s.threads[tid]) == Some((key, FastRead))
    ensures Leads(s, run, s') && CallMoved(s, tid, Recheck, s') && s'.h == s.h && s'.mutex == Some(tid)
  {
    var go := CallMove(tid, None);
    var m := Step(s, go).value;
    s' := Step(m, go).value;
    run := [go, go];
    TwoSteps(s, go, m, go, s');
  }

  lemma CallGenerates(s: State, tid: nat, key: StmtKey, stmt: Stmt) returns (run: seq<Label>, s': State)
    requires s.h.open && key !in s.h.stmts
    requires tid < |s.threads| && CallOf(s.threads[tid]) == Some((key, Recheck))
    ensures Leads(s, run, s') && CallMoved(s, tid, Storing(stmt), s') && s'.h == s.h && s'.mutex == s.mutex
  {
    var go, gen := CallMove(tid, None), CallMove(tid, Some(stmt));
    var m := Step(s, go).value;
    s' := Step(m, gen).value;
    run := [go, gen];
    TwoSteps(s, go, m, gen, s');
  }

  lemma CallStores(s: State, tid: nat, key: StmtKey, stmt: Stmt) returns (run: seq<Label>, s': State)
    requires tid < |s.threads| && CallOf(s.threads[tid]) == Some((key, Storing(stmt)))
    ensures Leads(s, run, s') && CallMoved(s, tid, Answered(Some(stmt)), s') && s'.mutex.None?
    ensures s'.h == Stored(s.h, key, stmt)
  {
    var go := CallMove(tid, None);
    var m := Step(s, go).value;
    s' := Step(m, go).value;
    run := [go, go];
    TwoSteps(s, go, m, go, s');
  }

  /** With the mutex free a call gets an uncached statement generated and cached without any other thread moving. */
  lemma CallAlone(s: State, tid: nat, key: StmtKey, stmt: Stmt) returns (run: seq<Label>, s': State)
    requires s.mutex.None? && s.h.open && key !in s.h.stmts
    requires tid < |s.threads| && CallOf(s.threads[tid]) == Some((key, FastRead))
    ensures Leads(s, run, s') && Undisturbed(s, s') && s'.h.stmts == s.h.stmts[key := stmt]
    ensures s'.threads == s.threads[tid := WithCall(s.threads[tid], Answered(Some(stmt)))]
  {
    var first, a := CallLocks(s, tid, key);
    var second, b := CallGenerates(a, tid, key, stmt);
    var third;
    third, s' := CallStores(b, tid, key, stmt);
    LeadsOn(s, first, a, second, b);
    LeadsOn(s, first + second, b, third, s');
    run := first + second + third;
  }

  lemma LookupAlone(s: State, key: StmtKey, stmt: Stmt) returns (run: seq<Label>, s': State)
    requires s.mutex.None? && s.h.open && key !in s.h.stmts
    ensures Leads(s, run, s') && Undisturbed(s, s') && key in s'.h.stmts && s.threads <= s'.threads
  {
    var m := Step(s, StartLookup(key)).value;
    run, s' := CallAlone(m, |s.threads|, key, stmt);
    run := [StartLookup(key)] + run;
    SpawnThenRun(s, StartLookup(key), m, run[1..], s');
  }

  /** A query of a fetch runs alone to its end. */
  lemma QueryAlone(s: State, tid: nat, group: Option<nat>, query: Query, stmt: Stmt) returns (run: seq<Label>, s': State)
    requires s.mutex.None? && s.h.open && QueryKey(query) !in s.h.stmts
    requires tid < |s.threads| && s.threads[tid] == Fetcher(group, Asking(query, FastRead))
    ensures Leads(s, run, s') && Undisturbed(s, s') && s'.h.stmts == s.h.stmts[QueryKey(query) := stmt]
    ensures
      var next := if query == ForId then Asking(ForPage, FastRead) else Retrieving;
      s'.threads == s.threads[tid := Fetcher(group, next)]
  {
    var m;
    run, m := CallAlone(s, tid, QueryKey(query), stmt);
    var go := FetcherMove(tid, true);
    var n := Step(m, go).value;
    s' := Step(n, go).value;
    ThenStep(s, run, m, go, n);
    ThenStep(s, run + [go], n, go, s');
    run := run + [go] + [go];
  }

  /** A fetch comes to retrieving its page without any other thread moving. */
  lemma FetchAlone(s: State, group: Option<nat>) returns (run: seq<Label>, s': State)
    requires s.mutex.None? && s.h.open && LookupIdStmt !in s.h.stmts && FetchOneStmt !in s.h.stmts
    requires group.Some? ==> group.value in s.groups
    ensures Leads(s, run, s') && Undisturbed(s, s') && s'.threads == s.threads + [Fetcher(group, Retrieving)]
    ensures s'.h.stmts.Keys == s.h.stmts.Keys + {LookupIdStmt, FetchOneStmt}
  {
    var l := StartFetch(group);
    var a := Step(s, l).value;
    var first, b := QueryAlone(a, |s.threads|, group, ForId, 1);
    var second;
    second, s' := QueryAlone(b, |s.threads|, group, ForPage, 2);
    LeadsOn(a, first, b, second, s');
    SpawnThenRun(s, l, a, first + second, s');
    run := [l] + (first + second);
  }

  /** With the mutex free a call of Close takes it without any other thread moving. */
  lemma CloseAlone(s: State) returns (run: seq<Label>, s': State)
    requires s.mutex.None? && s.h.open && !s.h.closed
    ensures Leads(s, run, s') && s'.phase.Stopping? && s'.h == s.h && s'.groups == s.groups
    ensures s'.threads == s.threads + [Closer(Active)]
  {
    var go := CloserMove(|s.threads|, SaveStmt);
    var s1 := Step(s, StartClose).value;
    var s2 := Step(s1, go).value;
    var s3 := Step(s2, go).value;
    s' := Step(s3, go).value;
    ThenStep(s, [], s, StartClose, s1);
    ThenStep(s, [StartClose], s1, go, s2);
    ThenStep(s, [StartClose] + [go], s2, go, s3);
    ThenStep(s, [StartClose] + [go] + [go], s3, go, s');
    run := [StartClose] + [go] + [go] + [go];
  }

  // ---- The runs ----

  /** One fetcher, whose sole fetch is retrieving its page. */
  lemma OneFetch() returns (run: seq<Label>, s: State)
    ensures Leads(INITIAL, run, s) && s.mutex.None? && s.phase.NotClosing? && s.h.open && !s.h.closed
    ensures s.threads == [Fetcher(Some(0), Retrieving)] && s.h.listeners == [WaitFor(0)]
    ensures 0 in s.groups && s.waited == {} && s.h.stmts.Keys == {LookupIdStmt, FetchOneStmt}
  {
    var l := NewFetcher(0);
    var m := Step(INITIAL, l).value;
    run, s := FetchAlone(m, Some(0));
    SpawnThenRun(INITIAL, l, m, run, s);
    run := [l] + run;
  }

  /** A fetch that is retrieving its page when Close takes the mutex can hang the shutdown, though no save is pending yet:
      it counts its save while Close waits, and the save asks for the mutex. */
  lemma FetchInProgressCanHang() returns (run: seq<Label>, s: State, more: seq<Label>, s': State)
    ensures Leads(INITIAL, run, s) && s.phase.Stopping? && forall i | 0 <= i < |s.threads| :: !s.threads[i].Saver?
    ensures OnlyMoves(more) && Leads(s, more, s') && Stuck(s') && !s'.h.closed
  {
    var first, m := OneFetch();
    var last;
    last, s := CloseAlone(m);
    run := first + last;
    LeadsOn(INITIAL, first, m, last, s);
    assert Awaited(s, 0) && !Ready(s, s.threads[0]);
    more, s' := BlockableShutdownCanHang(run, s);
  }

  /** Its save has missed the cache. */
  lemma SaveMissesCache() returns (run: seq<Label>, s: State)
    ensures Leads(INITIAL, run, s) && s.mutex.None? && s.phase.NotClosing? && s.h.open && !s.h.closed
    ensures s.threads == [Saver(Some(0), true, Calling(First, WantLock))]
    ensures s.h.listeners == [WaitFor(0)] && s.h.stmts.Keys == {LookupIdStmt, FetchOneStmt}
  {
    var m;
    run, m := OneFetch();
    var a := Step(m, FetcherMove(0, true)).value;
    var b := Step(a, SaverMove(0, true)).value;
    s := Step(b, CallMove(0, None)).value;
    ThenStep(INITIAL, run, m, FetcherMove(0, true), a);
    run := run + [FetcherMove(0, true)];
    ThenStep(INITIAL, run, a, SaverMove(0, true), b);
    run := run + [SaverMove(0, true)];
    ThenStep(INITIAL, run, b, CallMove(0, None), s);
    run := run + [CallMove(0, None)];
  }

  lemma BothCached(s: State) returns (run: seq<Label>, s': State)
    requires s.mutex.None? && s.h.open && SaveStmt !in s.h.stmts && SaveIdStmt !in s.h.stmts
    ensures Leads(s, run, s') && Undisturbed(s, s') && SaveCached(s'.h.stmts) && s.threads <= s'.threads
  {
    var first, m := LookupAlone(s, SaveStmt, 3);
    if SaveIdStmt in m.h.stmts {
      run, s' := first, m;
    } else {
      var second;
      second, s' := LookupAlone(m, SaveIdStmt, 4);
      LeadsOn(s, first, m, second, s');
      run := first + second;
    }
  }

  /** That every statement a save needs is cached when Close takes the mutex is not enough: a save that missed its fast
      read before another thread cached the statement still asks for the mutex, and Close and the save can be left
      waiting for each other for ever. */
  lemma CachedStatementsAreNotEnough() returns (run: seq<Label>, s: State, more: seq<Label>, s': State)
    ensures Leads(INITIAL, run, s) && s.phase.Stopping? && SaveCached(s.h.stmts)
    ensures OnlyMoves(more) && Leads(s, more, s') && Stuck(s') && !s'.h.closed
  {
    var first, m := SaveMissesCache();
    var second, n := BothCached(m);
    LeadsOn(INITIAL, first, m, second, n);
    var last;
    last, s := CloseAlone(n);
    LeadsOn(INITIAL, first + second, n, last, s);
    run := first + second + last;
    assert Awaited(s, 0) && s.threads[0] == m.threads[0];
    assert !Ready(s, s.threads[0]);
    more, s' := BlockableShutdownCanHang(run, s);
  }

  /** A save of a batch under way. */
  lemma OneBatchSave() returns (run: seq<Label>, s: State)
    ensures Leads(INITIAL, run, s) && s.mutex.None? && s.h.open && !s.h.closed
    ensures s.threads == [Saver(None, false, Starting)]
  {
    var m;
    run, m := FetchAlone(INITIAL, None);
    s := Step(m, FetcherMove(0, true)).value;
    ThenStep(INITIAL, run, m, FetcherMove(0, true), s);
    run := run + [FetcherMove(0, true)];
  }

  /** Close does not wait for the saves of a batch: one that is under way when Close takes the mutex can come to look up
      its statement when the handle is closed, and crash. */
  lemma LateBatchSaveCrashes() returns (run: seq<Label>, s: State, more: seq<Label>, s': State)
    ensures Leads(INITIAL, run, s) && s.phase.Stopping? && AllReady(s)
    ensures OnlyMoves(more) && Leads(s, more, s') && s'.h.closed && CanCrash(s')
  {
    var first, m := OneBatchSave();
    var last;
    last, s := CloseAlone(m);
    run := first + last;
    LeadsOn(INITIAL, first, m, last, s);
    assert Exposed(s, s.threads[0]);
    more, s' := ExposedShutdownCanCrash(run, s);
    CrashMeansClosed(run, s, more, s');
  }

  lemma CrashMeansClosed(history: seq<Label>, s: State, run: seq<Label>, s': State)
    requires Leads(INITIAL, history, s) && Leads(s, run, s') && CanCrash(s')
    ensures s'.h.closed
  {
    ReachableInv(history, s);
    RunKeepsInv(s, run, s');
    var l: Label :| Crashes(s', l);
    NilDatabaseMeansClosed(s', l.thread);
  }
}
