/** Interleaved saves end in the state of some serial order of them if the graph of their keys has no cycle. */
module SaveSerialisation {
  import opened Wrappers
  import opened WebPages
  import opened UrlStore
  import opened SaveInterleaving
  import opened KeyGraph
  import opened SaveOrders

  type Save = (SavablePage, Time)

  function EntryAt(saves: seq<Save>, i: nat): Entry
    requires i < |saves|
  {
    EntryOf(saves[i].0, saves[i].1)
  }

  function Started(saves: seq<Save>): seq<Thread> {
    seq(|saves|, i requires 0 <= i < |saves| => Saver(EntryAt(saves, i), AtUrls))
  }

  /** The threads are these saves, each at some point. */
  ghost predicate AreSaves(threads: seq<Thread>, saves: seq<Save>) {
    && |threads| == |saves|
    && forall i | 0 <= i < |saves| :: threads[i].Saver? && threads[i].entry == EntryAt(saves, i)
  }

  function DeedsOf(threads: seq<Thread>): seq<Deed>
    requires forall i | 0 <= i < |threads| :: threads[i].Saver?
  {
    seq(|threads|, i requires 0 <= i < |threads| =>
      Deed(threads[i].entry, WroteUrl(threads[i].saving), WroteMap(threads[i].saving)))
  }

  predicate WroteUrl(pc: SaverPc) {
    pc == AtMap || (pc.Finished? && pc.fault != FirstFails)
  }

  predicate WroteMap(pc: SaverPc) {
    pc == Finished(NoFault)
  }

  ghost predicate AllFinished(s: State) {
    forall i | 0 <= i < |s.threads| :: s.threads[i].Saver? && s.threads[i].saving.Finished?
  }

  /** The saves run one after the other, each complete or broken off as its thread was. */
  function SerialSaves(t: Tables, saves: seq<Save>, threads: seq<Thread>, order: seq<nat>): Tables
    requires |threads| == |saves| && InRange(order, |saves|)
    requires forall i | 0 <= i < |threads| :: threads[i].Saver? && threads[i].saving.Finished?
  {
    if order == [] then t
    else
      var i := order[|order| - 1];
      Saved(SerialSaves(t, saves, threads, order[..|order| - 1]), saves[i].0, saves[i].1, threads[i].saving.fault)
  }

  function All(n: nat): (all: set<nat>)
    ensures forall i: nat :: i in all <==> i < n
  {
    if n == 0 then {} else All(n - 1) + {n - 1}
  }

  ghost predicate IsOrder(order: seq<nat>, n: nat) {
    InRange(order, n) && Arranges(order, All(n))
  }

  /** A final state is that of some serial order. */
  ghost predicate Serialises(t: Tables, saves: seq<Save>, s: State)
    requires AreSaves(s.threads, saves) && AllFinished(s)
  {
    exists order :: IsOrder(order, |saves|) && s.tables == SerialSaves(t, saves, s.threads, order)
  }

  lemma {:induction false} SerialSavesAreDeeds(t: Tables, saves: seq<Save>, threads: seq<Thread>, order: seq<nat>)
    requires AreSaves(threads, saves) && InRange(order, |saves|)
    requires forall i | 0 <= i < |threads| :: threads[i].saving.Finished?
    ensures SerialSaves(t, saves, threads, order) == Serial(t, DeedsOf(threads), order)
  {
    if order != [] {
      var init, i := order[..|order| - 1], order[|order| - 1];
      SerialSavesAreDeeds(t, saves, threads, init);
      SavedIsEffect(SerialSaves(t, saves, threads, init), saves[i].0, saves[i].1, threads[i].saving.fault);
      assert threads[i].entry == EntryAt(saves, i);
    }
  }

  // ---- Who wrote last in a run ----

  /** `rows` names the saves whose rows the tables still hold; all else is as it was. */
  ghost predicate RowsHold(t0: Tables, t: Tables, deeds: seq<Deed>, rows: map<Key, nat>) {
    && (forall c | c in rows :: RowHit(deeds, c)(rows[c]))
    && (forall c :: RowAt(t, c) ==
                    if c in rows && rows[c] < |deeds| then Some(deeds[rows[c]].entry.row) else RowAt(t0, c))
  }

  /** `mappings` names the saves whose mappings they hold. */
  ghost predicate MappingsHold(t0: Tables, t: Tables, deeds: seq<Deed>, mappings: map<Key, nat>) {
    && (forall r | r in mappings :: MappingHit(deeds, r)(mappings[r]))
    && (forall r :: MappingAt(t, r) ==
                    if r in mappings && mappings[r] < |deeds| then Some(deeds[mappings[r]].entry.canonical)
                    else MappingAt(t0, r))
  }

  ghost predicate Holds(t0: Tables, t: Tables, deeds: seq<Deed>, rows: map<Key, nat>, mappings: map<Key, nat>) {
    RowsHold(t0, t, deeds, rows) && MappingsHold(t0, t, deeds, mappings)
  }

  /** Every write so far has been recorded. */
  ghost predicate Recorded(deeds: seq<Deed>, rows: map<Key, nat>, mappings: map<Key, nat>) {
    && (forall i | 0 <= i < |deeds| && deeds[i].row :: deeds[i].entry.canonical in rows)
    && (forall i | 0 <= i < |deeds| && deeds[i].mapping :: deeds[i].entry.requested in mappings)
  }

  lemma RowWrittenRows(t0: Tables, t: Tables, deeds: seq<Deed>, x: nat, rows: map<Key, nat>)
    requires RowsHold(t0, t, deeds, rows) && x < |deeds| && !deeds[x].row
    ensures
      var e := deeds[x].entry;
      RowsHold(t0, PutRow(t, e), deeds[x := deeds[x].(row := true)], rows[e.canonical := x])
  {
    var after := deeds[x := deeds[x].(row := true)];
    forall c | c in rows ensures rows[c] < |deeds| && rows[c] != x && after[rows[c]] == deeds[rows[c]] {
      assert RowHit(deeds, c)(rows[c]);
    }
  }

  lemma RowWrittenMappings(t0: Tables, t: Tables, deeds: seq<Deed>, x: nat, mappings: map<Key, nat>)
    requires MappingsHold(t0, t, deeds, mappings) && x < |deeds|
    ensures MappingsHold(t0, PutRow(t, deeds[x].entry), deeds[x := deeds[x].(row := true)], mappings)
  {
    forall r | r in mappings ensures MappingHit(deeds[x := deeds[x].(row := true)], r)(mappings[r]) {
      assert MappingHit(deeds, r)(mappings[r]);
    }
  }

  lemma MappingWrittenMappings(t0: Tables, t: Tables, deeds: seq<Deed>, x: nat, mappings: map<Key, nat>)
    requires MappingsHold(t0, t, deeds, mappings) && x < |deeds| && !deeds[x].mapping
    ensures
      var e := deeds[x].entry;
      MappingsHold(t0, PutMapping(t, e), deeds[x := deeds[x].(mapping := true)], mappings[e.requested := x])
  {
    var after := deeds[x := deeds[x].(mapping := true)];
    forall r | r in mappings
      ensures mappings[r] < |deeds| && mappings[r] != x && after[mappings[r]] == deeds[mappings[r]]
    {
      assert MappingHit(deeds, r)(mappings[r]);
    }
  }

  lemma MappingWrittenRows(t0: Tables, t: Tables, deeds: seq<Deed>, x: nat, rows: map<Key, nat>)
    requires RowsHold(t0, t, deeds, rows) && x < |deeds|
    ensures RowsHold(t0, PutMapping(t, deeds[x].entry), deeds[x := deeds[x].(mapping := true)], rows)
  {
    forall c | c in rows ensures RowHit(deeds[x := deeds[x].(mapping := true)], c)(rows[c]) {
      assert RowHit(deeds, c)(rows[c]);
    }
  }

  lemma RecordedRow(deeds: seq<Deed>, x: nat, rows: map<Key, nat>, mappings: map<Key, nat>)
    requires Recorded(deeds, rows, mappings) && x < |deeds|
    ensures Recorded(deeds[x := deeds[x].(row := true)], rows[deeds[x].entry.canonical := x], mappings)
  {
  }

  lemma RecordedMapping(deeds: seq<Deed>, x: nat, rows: map<Key, nat>, mappings: map<Key, nat>)
    requires Recorded(deeds, rows, mappings) && x < |deeds|
    ensures Recorded(deeds[x := deeds[x].(mapping := true)], rows, mappings[deeds[x].entry.requested := x])
  {
  }

  // What each kind of statement does to tables and deeds.

  lemma RowStep(saves: seq<Save>, s: State, m: Move)
    requires AreSaves(s.threads, saves) && Enabled(s, m) && s.threads[m.thread].saving == AtUrls && m.ok
    ensures
      var deeds, x := DeedsOf(s.threads), m.thread;
      && !deeds[x].row && Step(s, m).tables == PutRow(s.tables, deeds[x].entry)
      && DeedsOf(Step(s, m).threads) == deeds[x := deeds[x].(row := true)]
  {
  }

  lemma MappingStep(saves: seq<Save>, s: State, m: Move)
    requires AreSaves(s.threads, saves) && Enabled(s, m) && s.threads[m.thread].saving == AtMap && m.ok
    ensures
      var deeds, x := DeedsOf(s.threads), m.thread;
      && !deeds[x].mapping && Step(s, m).tables == PutMapping(s.tables, deeds[x].entry)
      && DeedsOf(Step(s, m).threads) == deeds[x := deeds[x].(mapping := true)]
  {
  }

  lemma FailedStep(saves: seq<Save>, s: State, m: Move)
    requires AreSaves(s.threads, saves) && Enabled(s, m) && !m.ok
    ensures Step(s, m).tables == s.tables && DeedsOf(Step(s, m).threads) == DeedsOf(s.threads)
  {
  }

  lemma StepKeepsSaves(saves: seq<Save>, s: State, m: Move)
    requires AreSaves(s.threads, saves) && Enabled(s, m)
    ensures AreSaves(Step(s, m).threads, saves)
    ensures s.threads[m.thread].saving == AtUrls || s.threads[m.thread].saving == AtMap
  {
  }

  lemma StepHolds(t0: Tables, saves: seq<Save>, s: State, m: Move, rows: map<Key, nat>, mappings: map<Key, nat>)
    returns (rows': map<Key, nat>, mappings': map<Key, nat>)
    requires AreSaves(s.threads, saves) && Enabled(s, m)
    requires Holds(t0, s.tables, DeedsOf(s.threads), rows, mappings) && Recorded(DeedsOf(s.threads), rows, mappings)
    ensures AreSaves(Step(s, m).threads, saves)
    ensures Holds(t0, Step(s, m).tables, DeedsOf(Step(s, m).threads), rows', mappings')
    ensures Recorded(DeedsOf(Step(s, m).threads), rows', mappings')
  {
    StepKeepsSaves(saves, s, m);
    var deeds, x := DeedsOf(s.threads), m.thread;
    rows', mappings' := rows, mappings;
    if !m.ok {
      FailedStep(saves, s, m);
    } else if s.threads[x].saving == AtUrls {
      RowStep(saves, s, m);
      RowWrittenRows(t0, s.tables, deeds, x, rows);
      RowWrittenMappings(t0, s.tables, deeds, x, mappings);
      RecordedRow(deeds, x, rows, mappings);
      rows' := rows[deeds[x].entry.canonical := x];
    } else {
      MappingStep(saves, s, m);
      MappingWrittenMappings(t0, s.tables, deeds, x, mappings);
      MappingWrittenRows(t0, s.tables, deeds, x, rows);
      RecordedMapping(deeds, x, rows, mappings);
      mappings' := mappings[deeds[x].entry.requested := x];
    }
  }

  lemma {:induction false} RunHolds(t0: Tables, saves: seq<Save>, s: State, run: seq<Move>, s': State,
                                    rows: map<Key, nat>, mappings: map<Key, nat>)
    returns (rows': map<Key, nat>, mappings': map<Key, nat>)
    requires AreSaves(s.threads, saves) && Leads(s, run, s')
    requires Holds(t0, s.tables, DeedsOf(s.threads), rows, mappings) && Recorded(DeedsOf(s.threads), rows, mappings)
    ensures AreSaves(s'.threads, saves)
    ensures Holds(t0, s'.tables, DeedsOf(s'.threads), rows', mappings')
    ensures Recorded(DeedsOf(s'.threads), rows', mappings')
    decreases |run|
  {
    if run == [] {
      rows', mappings' := rows, mappings;
    } else {
      var r, m := StepHolds(t0, saves, s, run[0], rows, mappings);
      rows', mappings' := RunHolds(t0, saves, Step(s, run[0]), run[1..], s', r, m);
    }
  }

  lemma StartHolds(t0: Tables, saves: seq<Save>)
    ensures AreSaves(Started(saves), saves)
    ensures Holds(t0, t0, DeedsOf(Started(saves)), map[], map[]) && Recorded(DeedsOf(Started(saves)), map[], map[])
  {
  }

  // ---- Acyclic saves serialise ----

  function KeyPair(save: Save): Edge<Key, Key> {
    Edge(save.0.canonicalURL.value.Key(), save.0.requestedURL.value.Key())
  }

  /** The graph of the saves: an edge for each pair of keys, however many saves share it. */
  function KeyEdges(saves: seq<Save>): set<Edge<Key, Key>> {
    set save | save in saves :: KeyPair(save)
  }

  lemma EntryHasKeys(saves: seq<Save>, i: nat)
    requires i < |saves|
    ensures Edge(EntryAt(saves, i).canonical, EntryAt(saves, i).requested) == KeyPair(saves[i])
  {
  }

  lemma DeedEdges(saves: seq<Save>, threads: seq<Thread>, who: set<nat>)
    requires AreSaves(threads, saves)
    ensures Edges(DeedsOf(threads), who) <= KeyEdges(saves)
  {
    var deeds := DeedsOf(threads);
    forall e | e in Edges(deeds, who) ensures e in KeyEdges(saves) {
      var i :| i in who && i < |deeds| && deeds[i].mapping
               && e == Edge(deeds[i].entry.canonical, deeds[i].entry.requested);
      assert deeds[i].entry == EntryAt(saves, i);
      EntryHasKeys(saves, i);
      assert saves[i] in saves;
    }
  }

  ghost function GoalOf(deeds: seq<Deed>, rows: map<Key, nat>, mappings: map<Key, nat>): Goal {
    Goal(rows, map r | r in mappings && mappings[r] < |deeds| :: deeds[mappings[r]].entry.canonical)
  }

  /** A serial order with the same last writers leaves the same tables. */
  lemma MeetingOrderGivesTables(t0: Tables, t: Tables, deeds: seq<Deed>, rows: map<Key, nat>, mappings: map<Key, nat>,
                                order: seq<nat>)
    requires Holds(t0, t, deeds, rows, mappings) && Recorded(deeds, rows, mappings) && InRange(order, |deeds|)
    requires Meets(deeds, order, GoalOf(deeds, rows, mappings))
    ensures Serial(t0, deeds, order) == t
  {
    var goal := GoalOf(deeds, rows, mappings);
    forall c ensures RowAt(Serial(t0, deeds, order), c) == RowAt(t, c) {
      SerialRow(t0, deeds, order, c);
      if c in rows {
        assert MeetsRow(deeds, order, c, goal.rows[c]) && RowHit(deeds, c)(rows[c]);
      }
    }
    forall r ensures MappingAt(Serial(t0, deeds, order), r) == MappingAt(t, r) {
      SerialMapping(t0, deeds, order, r);
      if r in mappings {
        assert MappingHit(deeds, r)(mappings[r]) && MeetsMapping(deeds, order, r, goal.mappings[r]);
      }
    }
    SameTables(Serial(t0, deeds, order), t);
  }

  lemma HeldIsFeasible(t0: Tables, t: Tables, deeds: seq<Deed>, rows: map<Key, nat>, mappings: map<Key, nat>)
    requires Holds(t0, t, deeds, rows, mappings) && forall i | 0 <= i < |deeds| && deeds[i].mapping :: deeds[i].row
    ensures Feasible(deeds, All(|deeds|), GoalOf(deeds, rows, mappings))
  {
    var goal := GoalOf(deeds, rows, mappings);
    forall r | r in goal.mappings ensures exists i :: i in All(|deeds|) && MapsTo(deeds, i, r, goal.mappings[r]) {
      assert MappingHit(deeds, r)(mappings[r]);
      assert MapsTo(deeds, mappings[r], r, goal.mappings[r]);
    }
  }

  /** Any number of saves, complete or broken off and interleaved in any way, end in the state of some serial order if the
      graph of their keys has no cycle. */
  lemma AcyclicSavesSerialise(t0: Tables, saves: seq<Save>, run: seq<Move>, s': State)
    requires Acyclic(KeyEdges(saves))
    requires Leads(State(t0, Started(saves)), run, s') && AllFinished(s')
    ensures AreSaves(s'.threads, saves) && Serialises(t0, saves, s')
  {
    StartHolds(t0, saves);
    var rows, mappings := RunHolds(t0, saves, State(t0, Started(saves)), run, s', map[], map[]);
    var deeds, who := DeedsOf(s'.threads), All(|saves|);
    HeldIsFeasible(t0, s'.tables, deeds, rows, mappings);
    DeedEdges(saves, s'.threads, who);
    SubgraphAcyclic(Edges(deeds, who), KeyEdges(saves));
    var order := Arrange(deeds, who, GoalOf(deeds, rows, mappings));
    forall k | 0 <= k < |order| ensures order[k] < |saves| {
      assert order[k] in order;
    }
    MeetingOrderGivesTables(t0, s'.tables, deeds, rows, mappings, order);
    SerialSavesAreDeeds(t0, saves, s'.threads, order);
    assert IsOrder(order, |saves|);
  }
}
