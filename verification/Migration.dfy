/** Migrations run with extra environment variables, which are remembered, set, and put back afterwards. */
module Migrations {
  import opened Wrappers

  type Vars = map<string, string>
  type Pairs = seq<(string, string)>

  datatype MigrationError =
    | NoMigrationFS
    | BadDialect
    | NotPairs
    | NoMigrationsFound
    | BadVariable(name: string)
    | HookFailed
    | MigrationFailed

  // ---- The environment ----

  predicate ValidName(name: string) {
    name != "" && '=' !in name && '\0' !in name
  }

  predicate ValidValue(value: string) {
    '\0' !in value
  }

  function Get(vars: Vars, name: string): string {
    if name in vars then vars[name] else ""
  }

  /** The environment of the process: a missing variable reads as the empty string. */
  class Environment {
    var vars: Vars

    method Getenv(name: string) returns (value: string)
      ensures value == Get(vars, name)
    {
      value := if name in vars then vars[name] else "";
    }

    method Setenv(name: string, value: string) returns (ok: bool)
      modifies this
      ensures ok == (name != "" && '=' !in name && '\0' !in name && '\0' !in value)
      ensures vars == if ok then old(vars)[name := value] else old(vars)
    {
      ok := ValidName(name) && ValidValue(value);
      if ok {
        vars := vars[name := value];
      }
    }

    method Unsetenv(name: string)
      modifies this
      ensures vars == old(vars) - {name}
    {
      vars := vars - {name};
    }
  }

  // ---- Setting and restoring ----

  function PairsOf(env: seq<string>): Pairs
    requires |env| % 2 == 0
  {
    seq(|env| / 2, i requires 0 <= i < |env| / 2 => (env[2 * i], env[2 * i + 1]))
  }

  function Init(pairs: Pairs): Pairs
    requires pairs != []
  {
    pairs[..|pairs| - 1]
  }

  function Last(pairs: Pairs): (string, string)
    requires pairs != []
  {
    pairs[|pairs| - 1]
  }

  /** The environment after all pairs are set in turn. */
  function AfterSets(vars: Vars, pairs: Pairs): Vars {
    if pairs == [] then vars else AfterSets(vars, Init(pairs))[Last(pairs).0 := Last(pairs).1]
  }

  /** What the set loop remembers for each name: what it read just before it last set it. */
  function Remembered(vars: Vars, pairs: Pairs): Vars {
    if pairs == [] then map[]
    else Remembered(vars, Init(pairs))[Last(pairs).0 := Get(AfterSets(vars, Init(pairs)), Last(pairs).0)]
  }

  function Restored(vars: Vars, remembered: Vars): Vars {
    map k | k in vars.Keys + remembered.Keys && (k in remembered ==> remembered[k] != "") ::
      if k in remembered then remembered[k] else vars[k]
  }

  predicate Settable(pair: (string, string)) {
    ValidName(pair.0) && ValidValue(pair.1)
  }

  ghost predicate AllSettable(pairs: Pairs) {
    forall i | 0 <= i < |pairs| :: Settable(pairs[i])
  }

  /** Whether the engine has a migration file system, whether its driver is a known dialect, and whether migrations are
      found in the file system. */
  datatype Engine = Engine(hasFS: bool, knownDialect: bool, hasMigrations: bool, env: seq<string>)

  /** What is wrong before anything is set. */
  function SetupError(e: Engine, env: seq<string>): Option<MigrationError> {
    if !e.hasFS then Some(NoMigrationFS)
    else if !e.knownDialect then Some(BadDialect)
    else if (|e.env| + |env|) % 2 != 0 then Some(NotPairs)
    else if !e.hasMigrations then Some(NoMigrationsFound)
    else None
  }

  ghost predicate StoppedAt(before: Vars, pairs: Pairs, n: nat, after: Vars, err: Option<MigrationError>)
    requires n < |pairs|
  {
    && AllSettable(pairs[..n]) && !Settable(pairs[n])
    && after == AfterSets(before, pairs[..n]) && err == Some(BadVariable(pairs[n].0))
  }

  /** What setting the pairs does: all of it, or nothing from the first pair on that cannot be set. */
  ghost predicate SetOrStopped(before: Vars, pairs: Pairs, after: Vars, envRestore: Vars, err: Option<MigrationError>) {
    if AllSettable(pairs) then
      err.None? && after == AfterSets(before, pairs) && envRestore == Remembered(before, pairs)
    else exists n | 0 <= n < |pairs| :: StoppedAt(before, pairs, n, after, err)
  }

  ghost predicate ValidVars(vars: Vars) {
    forall k | k in vars :: ValidName(k) && ValidValue(vars[k])
  }

  /** The first `n` pairs are set, and what they replaced is remembered. */
  ghost predicate SetSoFar(before: Vars, pairs: Pairs, n: nat, now: Vars, envRestore: Vars)
    requires n <= |pairs|
  {
    && AllSettable(pairs[..n]) && ValidVars(now) && ValidVars(envRestore)
    && now == AfterSets(before, pairs[..n]) && envRestore == Remembered(before, pairs[..n])
  }

  lemma OneMoreSet(before: Vars, pairs: Pairs, n: nat, now: Vars, envRestore: Vars)
    requires n < |pairs| && SetSoFar(before, pairs, n, now, envRestore) && Settable(pairs[n])
    ensures SetSoFar(before, pairs, n + 1, now[pairs[n].0 := pairs[n].1], envRestore[pairs[n].0 := Get(now, pairs[n].0)])
  {
    assert Init(pairs[..n + 1]) == pairs[..n];
  }

  lemma AllSet(before: Vars, pairs: Pairs, now: Vars, envRestore: Vars)
    requires SetSoFar(before, pairs, |pairs|, now, envRestore)
    ensures SetOrStopped(before, pairs, now, envRestore, None)
  {
    assert pairs[..|pairs|] == pairs;
  }

  method SetPairs(env: seq<string>, environ: Environment) returns (envRestore: Vars, err: Option<MigrationError>)
    requires |env| % 2 == 0 && ValidVars(environ.vars)
    modifies environ
    ensures ValidVars(environ.vars) && ValidVars(envRestore)
    ensures SetOrStopped(old(environ.vars), PairsOf(env), environ.vars, envRestore, err)
  {
    envRestore := map[];
    ghost var pairs, n := PairsOf(env), 0;
    var i := 0;
    while i < |env|
      invariant i == 2 * n <= |env|
      invariant SetSoFar(old(environ.vars), pairs, n, environ.vars, envRestore)
    {
      assert pairs[n] == (env[i], env[i + 1]);
      var before := environ.Getenv(env[i]);
      ghost var vars := environ.vars;
      var ok := environ.Setenv(env[i], env[i + 1]);
      if !ok {
        assert StoppedAt(old(environ.vars), pairs, n, environ.vars, Some(BadVariable(env[i])));
        return envRestore - {env[i]}, Some(BadVariable(env[i]));
      }
      OneMoreSet(old(environ.vars), pairs, n, vars, envRestore);
      envRestore := envRestore[env[i] := before];
      i, n := i + 2, n + 1;
    }
    AllSet(old(environ.vars), pairs, environ.vars, envRestore);
    return envRestore, None;
  }

  /** Sets the engine's pairs and then the caller's. A pair that cannot be set leaves those before it set, with nobody to
      restore them. */
  method PrepareForMigration(e: Engine, env: seq<string>, environ: Environment)
    returns (envRestore: Vars, err: Option<MigrationError>)
    requires ValidVars(environ.vars)
    modifies environ
    ensures ValidVars(envRestore)
    ensures SetupError(e, env).Some? ==> err == SetupError(e, env) && environ.vars == old(environ.vars)
    ensures !e.hasFS ==> err == Some(NoMigrationFS)
    ensures e.hasFS && !e.knownDialect ==> err == Some(BadDialect)
    ensures e.hasFS && e.knownDialect && (|e.env| + |env|) % 2 != 0 ==> err == Some(NotPairs)
    ensures e.hasFS && e.knownDialect && (|e.env| + |env|) % 2 == 0 && !e.hasMigrations ==> err == Some(NoMigrationsFound)
    ensures SetupError(e, env).None? ==>
              SetOrStopped(old(environ.vars), PairsOf(e.env + env), environ.vars, envRestore, err)
  {
    if !e.hasFS {
      return map[], Some(NoMigrationFS);
    }
    if !e.knownDialect {
      return map[], Some(BadDialect);
    }
    var merged := e.env + env;
    if |merged| % 2 != 0 {
      return map[], Some(NotPairs);
    }
    if !e.hasMigrations {
      return map[], Some(NoMigrationsFound);
    }
    envRestore, err := SetPairs(merged, environ);
  }

  /** What is left of a map of remembered values when `todo` is still to be put back. */
  ghost function Without(remembered: Vars, todo: set<string>): Vars {
    remembered - todo
  }

  lemma OneMoreRestored(vars: Vars, remembered: Vars, todo: set<string>, k: string)
    requires todo <= remembered.Keys && k in todo
    ensures
      var before := Restored(vars, Without(remembered, todo));
      Restored(vars, Without(remembered, todo - {k})) ==
      if remembered[k] == "" then before - {k} else before[k := remembered[k]]
  {
  }

  lemma NothingRestored(vars: Vars, remembered: Vars)
    ensures Restored(vars, Without(remembered, remembered.Keys)) == vars
  {
  }

  /** Puts the remembered values back, in an arbitrary order; an empty one unsets its variable. */
  method ClearF(envRestore: Vars, environ: Environment)
    requires ValidVars(envRestore)
    modifies environ
    ensures environ.vars == Restored(old(environ.vars), envRestore)
  {
    var todo := envRestore.Keys;
    NothingRestored(environ.vars, envRestore);
    while todo != {}
      invariant todo <= envRestore.Keys
      invariant environ.vars == Restored(old(environ.vars), Without(envRestore, todo))
      decreases |todo|
    {
      var k :| k in todo;
      OneMoreRestored(old(environ.vars), envRestore, todo, k);
      if envRestore[k] == "" {
        environ.Unsetenv(k);
      } else {
        var _ := environ.Setenv(k, envRestore[k]);
      }
      todo := todo - {k};
    }
    assert Without(envRestore, {}) == envRestore;
  }

  /** An up migration: whether or not the hook or the migration fails, what was set is put back. */
  method MigrateUp(e: Engine, env: seq<string>, environ: Environment, hookFails: bool, migrationFails: bool)
    returns (err: Option<MigrationError>)
    requires ValidVars(environ.vars)
    modifies environ
    ensures SetupError(e, env).Some? ==> err == SetupError(e, env) && environ.vars == old(environ.vars)
    ensures SetupError(e, env).None? ==>
              var pairs := PairsOf(e.env + env);
              if AllSettable(pairs) then
                && err == (if hookFails then Some(HookFailed) else if migrationFails then Some(MigrationFailed) else None)
                && environ.vars == RoundTrip(old(environ.vars), pairs)
              else exists n | 0 <= n < |pairs| :: StoppedAt(old(environ.vars), pairs, n, environ.vars, err)
  {
    var envRestore;
    envRestore, err := PrepareForMigration(e, env, environ);
    if err.Some? {
      return;
    }
    if hookFails {
      err := Some(HookFailed);
    } else if migrationFails {
      err := Some(MigrationFailed);
    }
    ClearF(envRestore, environ);
  }

  // ---- When the environment is restored ----

  /** The value of the last pair that names `k`. */
  function LastValue(pairs: Pairs, k: string): Option<string> {
    if pairs == [] then None
    else if Last(pairs).0 == k then Some(Last(pairs).1)
    else LastValue(Init(pairs), k)
  }

  /** The value of the last pair but one that names `k`. */
  function Overwritten(pairs: Pairs, k: string): Option<string> {
    if pairs == [] then None
    else if Last(pairs).0 == k then LastValue(Init(pairs), k)
    else Overwritten(Init(pairs), k)
  }

  function Or(o: Option<string>, otherwise: string): string {
    if o.Some? then o.value else otherwise
  }

  lemma {:induction false} AfterSetsHold(vars: Vars, pairs: Pairs, k: string)
    ensures k in AfterSets(vars, pairs) <==> k in vars || LastValue(pairs, k).Some?
    ensures Get(AfterSets(vars, pairs), k) == Or(LastValue(pairs, k), Get(vars, k))
  {
    if pairs != [] {
      AfterSetsHold(vars, Init(pairs), k);
    }
  }

  lemma {:induction false} LastValueAt(pairs: Pairs, i: nat)
    requires i < |pairs| && forall j | i < j < |pairs| :: pairs[j].0 != pairs[i].0
    ensures LastValue(pairs, pairs[i].0) == Some(pairs[i].1)
  {
    if i < |pairs| - 1 {
      LastValueAt(Init(pairs), i);
    }
  }

  lemma {:induction false} LastValueNowhere(pairs: Pairs, k: string)
    requires forall j | 0 <= j < |pairs| :: pairs[j].0 != k
    ensures LastValue(pairs, k).None?
  {
    if pairs != [] {
      LastValueNowhere(Init(pairs), k);
    }
  }

  /** The arguments are names and values in turn: a variable has the value that follows its last mention as a name, and one
      that is not named keeps its own. */
  lemma ArgumentsAreSet(vars: Vars, env: seq<string>, i: nat, k: string)
    requires |env| % 2 == 0
    ensures 2 * i < |env| && (forall j | i < j < |env| / 2 :: env[2 * j] != env[2 * i]) ==>
              env[2 * i] in AfterSets(vars, PairsOf(env)) && AfterSets(vars, PairsOf(env))[env[2 * i]] == env[2 * i + 1]
    ensures (forall j | 0 <= j < |env| / 2 :: env[2 * j] != k) ==>
              (k in AfterSets(vars, PairsOf(env)) <==> k in vars) && Get(AfterSets(vars, PairsOf(env)), k) == Get(vars, k)
  {
    var pairs := PairsOf(env);
    if 2 * i < |env| && forall j | i < j < |env| / 2 :: env[2 * j] != env[2 * i] {
      LastValueAt(pairs, i);
      AfterSetsHold(vars, pairs, env[2 * i]);
    }
    if forall j | 0 <= j < |env| / 2 :: env[2 * j] != k {
      LastValueNowhere(pairs, k);
      AfterSetsHold(vars, pairs, k);
    }
  }

  lemma {:induction false} RememberedHold(vars: Vars, pairs: Pairs, k: string)
    ensures k in Remembered(vars, pairs) <==> LastValue(pairs, k).Some?
    ensures k in Remembered(vars, pairs) ==> Remembered(vars, pairs)[k] == Or(Overwritten(pairs, k), Get(vars, k))
  {
    if pairs != [] {
      RememberedHold(vars, Init(pairs), k);
      AfterSetsHold(vars, Init(pairs), k);
    }
  }

  function RoundTrip(vars: Vars, pairs: Pairs): Vars {
    Restored(AfterSets(vars, pairs), Remembered(vars, pairs))
  }

  /** What becomes of one variable: one that no pair names is untouched; one that is named gets the value of the last
      pair but one that names it, or if there is none the value it had, and is unset if that is empty. */
  lemma RoundTripOf(vars: Vars, pairs: Pairs, k: string)
    ensures LastValue(pairs, k).None? ==> (k in RoundTrip(vars, pairs) <==> k in vars)
    ensures LastValue(pairs, k).Some? ==>
              (k in RoundTrip(vars, pairs) <==> Or(Overwritten(pairs, k), Get(vars, k)) != "")
    ensures k in RoundTrip(vars, pairs) ==> RoundTrip(vars, pairs)[k] == Or(Overwritten(pairs, k), Get(vars, k))
  {
    AfterSetsHold(vars, pairs, k);
    RememberedHold(vars, pairs, k);
    UnnamedNotOverwritten(pairs, k);
  }

  lemma {:induction false} UnnamedNotOverwritten(pairs: Pairs, k: string)
    ensures LastValue(pairs, k).None? ==> Overwritten(pairs, k).None?
  {
    if pairs != [] {
      UnnamedNotOverwritten(Init(pairs), k);
    }
  }

  /** A variable that comes back: it was not set to the empty string, and if several pairs name it then the last but one
      of them names the value it had. */
  ghost predicate ComesBack(vars: Vars, pairs: Pairs, k: string) {
    (k in vars ==> vars[k] != "") && Or(Overwritten(pairs, k), Get(vars, k)) == Get(vars, k)
  }

  /** Setting and restoring give back the exact environment if and only if every named variable comes back. */
  lemma RestoredExactly(vars: Vars, pairs: Pairs)
    ensures RoundTrip(vars, pairs) == vars <==> forall k | LastValue(pairs, k).Some? :: ComesBack(vars, pairs, k)
  {
    if RoundTrip(vars, pairs) == vars {
      forall k | LastValue(pairs, k).Some? ensures ComesBack(vars, pairs, k) {
        RoundTripOf(vars, pairs, k);
      }
    }
    if forall k | LastValue(pairs, k).Some? :: ComesBack(vars, pairs, k) {
      forall k ensures k in RoundTrip(vars, pairs) <==> k in vars
        ensures k in vars ==> RoundTrip(vars, pairs)[k] == vars[k]
      {
        RoundTripOf(vars, pairs, k);
        UnnamedNotOverwritten(pairs, k);
      }
    }
  }

  ghost predicate DistinctNames(pairs: Pairs) {
    forall i, j | 0 <= i < j < |pairs| :: pairs[i].0 != pairs[j].0
  }

  lemma {:induction false} LastValueNamed(pairs: Pairs, k: string)
    ensures LastValue(pairs, k).Some? <==> exists i | 0 <= i < |pairs| :: pairs[i].0 == k
  {
    if pairs != [] {
      LastValueNamed(Init(pairs), k);
      assert pairs[|pairs| - 1] == Last(pairs);
      if i :| 0 <= i < |Init(pairs)| && Init(pairs)[i].0 == k {
        assert pairs[i].0 == k;
      }
    }
  }

  lemma {:induction false} DistinctNotOverwritten(pairs: Pairs, k: string)
    requires DistinctNames(pairs)
    ensures Overwritten(pairs, k).None?
  {
    if pairs != [] {
      DistinctNotOverwritten(Init(pairs), k);
      LastValueNamed(Init(pairs), k);
    }
  }

  /** With distinct names, the environment is restored exactly when no named variable was set to the empty string. */
  lemma DistinctNamesRestored(vars: Vars, pairs: Pairs)
    requires DistinctNames(pairs)
    ensures RoundTrip(vars, pairs) == vars <==>
            forall i | 0 <= i < |pairs| && pairs[i].0 in vars :: vars[pairs[i].0] != ""
  {
    RestoredExactly(vars, pairs);
    forall k
      ensures Overwritten(pairs, k).None?
      ensures LastValue(pairs, k).Some? <==> exists i | 0 <= i < |pairs| :: pairs[i].0 == k
    {
      DistinctNotOverwritten(pairs, k);
      LastValueNamed(pairs, k);
    }
    if forall i | 0 <= i < |pairs| && pairs[i].0 in vars :: vars[pairs[i].0] != "" {
      forall k | LastValue(pairs, k).Some? ensures ComesBack(vars, pairs, k) {
        var i :| 0 <= i < |pairs| && pairs[i].0 == k;
      }
    } else {
      var i :| 0 <= i < |pairs| && pairs[i].0 in vars && vars[pairs[i].0] == "";
      assert !ComesBack(vars, pairs, pairs[i].0);
    }
  }

  /** When engine and caller both name a variable, what stays behind is the engine's value. */
  lemma SharedNameLeavesEngineValue(vars: Vars, k: string, engineValue: string, callerValue: string)
    requires engineValue != ""
    ensures Get(RoundTrip(vars, [(k, engineValue), (k, callerValue)]), k) == engineValue
  {
    var pairs := [(k, engineValue), (k, callerValue)];
    assert Init(pairs) == [(k, engineValue)];
    assert LastValue(Init(pairs), k) == Some(engineValue);
    RoundTripOf(vars, pairs, k);
  }
}
