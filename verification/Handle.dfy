/** The database handle: prepared statements cached by key, a bounded queue of close listeners, and an orderly close.
    Each function below is one atomic effect on the handle's fields. */
module Handles {
  import opened Wrappers

  /** Keys of prepared statements: those of the page store, and those of other clients of the handle. */
  datatype StmtKey = SaveStmt | SaveIdStmt | LookupIdStmt | FetchOneStmt | DeleteStmt | OtherStmt(n: nat)

  type Stmt = nat

  /** A close listener: the wait for the pending saves of a group of fetchers, or some other callback. */
  datatype Listener = WaitFor(group: nat) | Callback(id: nat)

  /** The errors of a handle, and the panic of a generator that is given no database. */
  datatype HandleError =
    | DatabaseAlreadyOpen
    | DriverFailed
    | HookFailed
    | DatabaseClosed
    | CloseListenersFull
    | GeneratorFailed
    | NilDatabase
    | StatementNotClosed(key: StmtKey)
    | DatabaseNotClosed

  const LISTENER_CAPACITY := 8

  /** The handle's fields, then a history: how often the `done` and listener channels and the database were closed, the
      listeners ever accepted and those that have run, and the keys of closed statements. */
  datatype Handle = Handle(
    stmts: map<StmtKey, Stmt>,
    open: bool,
    closed: bool,
    listeners: seq<Listener>,
    doneCloses: nat,
    queueCloses: nat,
    dbCloses: nat,
    accepted: seq<Listener>,
    ran: seq<Listener>,
    closedKeys: seq<StmtKey>)

  const NEW := Handle(map[], false, false, [], 0, 0, 0, [], [], [])
  const OPENED := NEW.(open := true)

  function Registered(h: Handle, l: Listener): Handle {
    if h.closed || |h.listeners| >= LISTENER_CAPACITY then h
    else h.(listeners := h.listeners + [l], accepted := h.accepted + [l])
  }

  function Stored(h: Handle, key: StmtKey, stmt: Stmt): Handle {
    h.(stmts := h.stmts[key := stmt])
  }

  function MaintenanceStopped(h: Handle): Handle {
    h.(doneCloses := h.doneCloses + 1)
  }

  function QueueClosed(h: Handle): Handle {
    h.(queueCloses := h.queueCloses + 1)
  }

  function Popped(h: Handle): Handle
    requires h.listeners != []
  {
    h.(listeners := h.listeners[1..])
  }

  function Ran(h: Handle, l: Listener): Handle {
    h.(ran := h.ran + [l])
  }

  function StatementClosed(h: Handle, key: StmtKey): Handle {
    h.(closedKeys := h.closedKeys + [key])
  }

  function Cleared(h: Handle): Handle {
    h.(stmts := map[])
  }

  function DatabaseShut(h: Handle): Handle {
    h.(open := false, dbCloses := h.dbCloses + 1)
  }

  function MarkedClosed(h: Handle): Handle {
    h.(closed := true)
  }

  /** What holds of a handle between operations: the queue is bounded, what was accepted has run or is queued, and the
      listener channel and the database are closed once, when the handle is; so is `done`, which a call of
      StopMaintenance may also close before. A closed handle that is opened again gets a new `done` and stays closed. */
  ghost predicate AtRest(h: Handle) {
    && |h.listeners| <= LISTENER_CAPACITY
    && h.accepted == h.ran + h.listeners
    && h.queueCloses == h.dbCloses == (if h.closed then 1 else 0)
    && h.doneCloses <= 1 && (h.doneCloses == 1 ==> h.open || h.closed)
    && (h.closed ==> h.listeners == [])
    && (h.closed && !h.open ==> h.doneCloses == 1 && h.stmts == map[])
  }

  /** The handle as a program that uses it alone sees it; the interleavings are the subject of module Shutdown. */
  class DBHandle {
    var h: Handle

    constructor ()
      ensures h == NEW && AtRest(h)
    {
      h := NEW;
    }

    /** Opening makes the database usable, even when the hook that runs afterwards fails. A closed handle can be opened
        again, but stays marked closed, so that no call of Close ever closes it. */
    method Open(driverFails: bool, hookFails: bool) returns (err: Option<HandleError>)
      requires AtRest(h)
      modifies this
      ensures AtRest(h)
      ensures old(h).open ==> err == Some(DatabaseAlreadyOpen) && h == old(h)
      ensures !old(h).open && driverFails ==> err == Some(DriverFailed) && h == old(h)
      ensures !old(h).open && !driverFails ==>
                h == old(h).(open := true, doneCloses := 0) && err == if hookFails then Some(HookFailed) else None
    {
      if h.open {
        return Some(DatabaseAlreadyOpen);
      }
      if driverFails {
        return Some(DriverFailed);
      }
      h := h.(open := true, doneCloses := 0);
      if hookFails {
        return Some(HookFailed);
      }
      return None;
    }

    /** Returns the cached statement, or the one generated for the key, which it caches. Without a database the generator
        panics. */
    method Statement(key: StmtKey, generated: Option<Stmt>) returns (r: Result<Stmt, HandleError>)
      modifies this
      ensures key in old(h).stmts ==> r == Success(old(h).stmts[key]) && h == old(h)
      ensures key !in old(h).stmts && !old(h).open ==> r == Failure(NilDatabase) && h == old(h)
      ensures key !in old(h).stmts && old(h).open && generated.None? ==> r == Failure(GeneratorFailed) && h == old(h)
      ensures key !in old(h).stmts && old(h).open && generated.Some? ==>
                r == Success(generated.value) && h == old(h).(stmts := old(h).stmts[key := generated.value])
    {
      if key in h.stmts {
        return Success(h.stmts[key]);
      }
      if !h.open {
        return Failure(NilDatabase);
      }
      if generated.None? {
        return Failure(GeneratorFailed);
      }
      h := Stored(h, key, generated.value);
      return Success(generated.value);
    }

    method AddCloseListener(l: Listener) returns (err: Option<HandleError>)
      requires AtRest(h)
      modifies this
      ensures AtRest(h) && h == Registered(old(h), l)
      ensures err == if old(h).closed then Some(DatabaseClosed)
                     else if |old(h).listeners| == 8 then Some(CloseListenersFull) else None
      ensures h == if err.Some? then old(h)
                   else old(h).(listeners := old(h).listeners + [l], accepted := old(h).accepted + [l])
    {
      if h.closed {
        return Some(DatabaseClosed);
      }
      if |h.listeners| >= LISTENER_CAPACITY {
        return Some(CloseListenersFull);
      }
      h := Registered(h, l);
      return None;
    }

    /** Closes `done`: a panic if there is no such channel yet or it is closed already. */
    method StopMaintenance() returns (panicked: bool)
      requires AtRest(h)
      modifies this
      ensures AtRest(h)
      ensures !panicked <==> old(h).open && old(h).doneCloses == 0
      ensures h == if panicked then old(h) else MaintenanceStopped(old(h))
    {
      if !(h.open || h.closed) || h.doneCloses > 0 {
        return true;
      }
      h := MaintenanceStopped(h);
      return false;
    }

    /** Runs every queued listener in order, then closes every cached statement in some order, then the database, and
        reports what could not be closed without letting it stop the rest. On a handle that is marked closed, or was
        never opened, it does nothing. After maintenance was stopped by hand it panics before any of that, and the handle
        stays open with all its listeners. */
    method Close(stuckStmts: set<StmtKey>, stuckDb: bool) returns (errs: set<HandleError>, panicked: bool)
      requires AtRest(h)
      modifies this
      ensures AtRest(h)
      ensures panicked <==> old(h).open && !old(h).closed && old(h).doneCloses > 0
      ensures !old(h).open || old(h).closed || panicked ==> h == old(h) && errs == {}
      ensures old(h).open && !old(h).closed && !panicked ==>
                && h.closed && !h.open && h.accepted == old(h).accepted && h.ran == old(h).ran + old(h).listeners
                && old(h).closedKeys <= h.closedKeys
                && multiset(h.closedKeys[|old(h).closedKeys|..]) == multiset(old(h).stmts.Keys)
                && (forall key :: StatementNotClosed(key) in errs <==> key in old(h).stmts && key in stuckStmts)
                && (DatabaseNotClosed in errs <==> stuckDb)
    {
      errs := {};
      if h.closed || !h.open {
        return errs, false;
      }
      panicked := StopMaintenance();
      if panicked {
        return;
      }
      h := QueueClosed(h);
      while h.listeners != []
        invariant h == old(h).(doneCloses := 1, queueCloses := 1, listeners := h.listeners, ran := h.ran)
        invariant h.ran + h.listeners == old(h).ran + old(h).listeners
        decreases |h.listeners|
      {
        var f := h.listeners[0];
        h := Popped(h);
        h := Ran(h, f);
      }
      assert h.ran == old(h).ran + old(h).listeners;
      ghost var drained := h;
      ghost var base := |h.closedKeys|;
      var todo := h.stmts.Keys;
      while todo != {}
        invariant todo <= h.stmts.Keys
        invariant h == drained.(closedKeys := h.closedKeys)
        invariant base <= |h.closedKeys| && h.closedKeys[..base] == drained.closedKeys
        invariant multiset(h.closedKeys[base..]) + multiset(todo) == multiset(h.stmts.Keys)
        invariant forall key :: StatementNotClosed(key) in errs <==> key in h.stmts && key !in todo && key in stuckStmts
        invariant DatabaseNotClosed !in errs
        decreases |todo|
      {
        var key :| key in todo;
        assert (h.closedKeys + [key])[base..] == h.closedKeys[base..] + [key];
        h := StatementClosed(h, key);
        if key in stuckStmts {
          errs := errs + {StatementNotClosed(key)};
        }
        assert multiset(todo) == multiset(todo - {key}) + multiset{key};
        todo := todo - {key};
      }
      h := Cleared(h);
      if h.open {
        h := DatabaseShut(h);
        if stuckDb {
          errs := errs + {DatabaseNotClosed};
        }
      }
      h := MarkedClosed(h);
    }
  }
}
