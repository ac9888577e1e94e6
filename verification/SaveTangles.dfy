/** Saves whose keys form a cycle can be interleaved so that no serial order of them gives the same tables. Hence exactly
    when saves always serialise, and what that means for few of them. */
module SaveTangles {
  import opened Wrappers
  import opened Bits
  import opened Ordering
  import opened Urls
  import opened WebPages
  import opened UrlStore
  import opened SaveInterleaving
  import opened KeyGraph
  import opened SaveOrders
  import opened SaveSerialisation
  import Keys

  // ---- All rows, then all mappings ----

  function Moves(order: seq<nat>): seq<Move> {
    seq(|order|, k requires 0 <= k < |order| => Move(order[k], true))
  }

  lemma {:induction false} LeadsThen(s: State, run: seq<Move>, m: State, move: Move)
    requires Leads(s, run, m) && Enabled(m, move)
    ensures Leads(s, run + [move], Step(m, move))
    decreases |run|
  {
    if run == [] {
      assert [move][1..] == [];
      assert Leads(Step(m, move), [move][1..], Step(m, move));
    } else {
      LeadsThen(Step(s, run[0]), run[1..], m, move);
      assert (run + [move])[1..] == run[1..] + [move];
    }
  }

  lemma {:induction false} LeadsOn(s: State, first: seq<Move>, m: State, second: seq<Move>, s': State)
    requires Leads(s, first, m) && Leads(m, second, s')
    ensures Leads(s, first + second, s')
    decreases |first|
  {
    if first == [] {
      assert first + second == second;
    } else {
      LeadsOn(Step(s, first[0]), first[1..], m, second, s');
      assert (first + second)[1..] == first[1..] + second;
    }
  }

  function RowDeeds(saves: seq<Save>): seq<Deed> {
    seq(|saves|, i requires 0 <= i < |saves| => Deed(EntryAt(saves, i), true, false))
  }

  function MappingDeeds(saves: seq<Save>): seq<Deed> {
    seq(|saves|, i requires 0 <= i < |saves| => Deed(EntryAt(saves, i), false, true))
  }

  function ThreadsAt(saves: seq<Save>, done: seq<nat>, before: SaverPc, after: SaverPc): seq<Thread> {
    seq(|saves|, i requires 0 <= i < |saves| => Saver(EntryAt(saves, i), if i in done then after else before))
  }

  function RowsWritten(t: Tables, saves: seq<Save>, done: seq<nat>): State
    requires InRange(done, |saves|)
  {
    State(Serial(t, RowDeeds(saves), done), ThreadsAt(saves, done, AtUrls, AtMap))
  }

  function MappingsWritten(t: Tables, saves: seq<Save>, done: seq<nat>): State
    requires InRange(done, |saves|)
  {
    State(Serial(t, MappingDeeds(saves), done), ThreadsAt(saves, done, AtMap, Finished(NoFault)))
  }

  lemma OneMoreRow(t: Tables, saves: seq<Save>, done: seq<nat>, x: nat)
    requires InRange(done, |saves|) && x < |saves| && x !in done
    ensures InRange(done + [x], |saves|)
    ensures
      var s := RowsWritten(t, saves, done);
      Enabled(s, Move(x, true)) && Step(s, Move(x, true)) == RowsWritten(t, saves, done + [x])
  {
    assert (done + [x])[..|done|] == done;
    assert Step(RowsWritten(t, saves, done), Move(x, true)).threads == ThreadsAt(saves, done + [x], AtUrls, AtMap);
  }

  lemma OneMoreMapping(t: Tables, saves: seq<Save>, done: seq<nat>, x: nat)
    requires InRange(done, |saves|) && x < |saves| && x !in done
    ensures InRange(done + [x], |saves|)
    ensures
      var s := MappingsWritten(t, saves, done);
      Enabled(s, Move(x, true)) && Step(s, Move(x, true)) == MappingsWritten(t, saves, done + [x])
  {
    assert (done + [x])[..|done|] == done;
    assert Step(MappingsWritten(t, saves, done), Move(x, true)).threads
           == ThreadsAt(saves, done + [x], AtMap, Finished(NoFault));
  }

  lemma MovesThen(s: State, done: seq<nat>, m: State, x: nat, s': State)
    requires Leads(s, Moves(done), m) && Enabled(m, Move(x, true)) && Step(m, Move(x, true)) == s'
    ensures Leads(s, Moves(done + [x]), s')
  {
    LeadsThen(s, Moves(done), m, Move(x, true));
    assert Moves(done + [x]) == Moves(done) + [Move(x, true)];
  }

  lemma {:induction false} RowsRun(t: Tables, saves: seq<Save>, order: seq<nat>)
    requires InRange(order, |saves|) && NoRepeats(order)
    ensures Leads(State(t, Started(saves)), Moves(order), RowsWritten(t, saves, order))
  {
    if order == [] {
      assert Started(saves) == ThreadsAt(saves, [], AtUrls, AtMap);
    } else {
      var init, x := order[..|order| - 1], order[|order| - 1];
      assert order == init + [x];
      RowsRun(t, saves, init);
      OneMoreRow(t, saves, init, x);
      MovesThen(State(t, Started(saves)), init, RowsWritten(t, saves, init), x, RowsWritten(t, saves, init + [x]));
    }
  }

  lemma {:induction false} MappingsRun(t: Tables, saves: seq<Save>, order: seq<nat>)
    requires InRange(order, |saves|) && NoRepeats(order)
    ensures Leads(MappingsWritten(t, saves, []), Moves(order), MappingsWritten(t, saves, order))
  {
    if order != [] {
      var init, x := order[..|order| - 1], order[|order| - 1];
      assert order == init + [x];
      MappingsRun(t, saves, init);
      OneMoreMapping(t, saves, init, x);
      MovesThen(MappingsWritten(t, saves, []), init, MappingsWritten(t, saves, init), x,
                MappingsWritten(t, saves, init + [x]));
    }
  }

  /** The rows can be written in one order and after them the mappings in another. */
  lemma RowsThenMappings(t: Tables, saves: seq<Save>, rows: seq<nat>, mappings: seq<nat>)
    requires IsOrder(rows, |saves|) && IsOrder(mappings, |saves|)
    ensures
      Leads(State(t, Started(saves)), Moves(rows) + Moves(mappings),
            MappingsWritten(Serial(t, RowDeeds(saves), rows), saves, mappings))
  {
    RowsRun(t, saves, rows);
    var u := Serial(t, RowDeeds(saves), rows);
    assert RowsWritten(t, saves, rows) == MappingsWritten(u, saves, []) by {
      assert ThreadsAt(saves, rows, AtUrls, AtMap) == ThreadsAt(saves, [], AtMap, Finished(NoFault));
    }
    MappingsRun(u, saves, mappings);
    LeadsOn(State(t, Started(saves)), Moves(rows), RowsWritten(t, saves, rows), Moves(mappings),
            MappingsWritten(u, saves, mappings));
  }

  // ---- Orders that end in given saves ----

  /** All indices below `n` that are not in `tail`, then `tail`. */
  function Ending(n: nat, tail: seq<nat>): seq<nat> {
    Others(n, tail) + tail
  }

  function Others(n: nat, tail: seq<nat>): (others: seq<nat>)
    ensures forall i: nat :: i in others <==> i < n && i !in tail
    ensures NoRepeats(others)
  {
    if n == 0 then [] else Others(n - 1, tail) + if n - 1 in tail then [] else [n - 1]
  }

  lemma EndingIsOrder(n: nat, tail: seq<nat>)
    requires InRange(tail, n) && NoRepeats(tail)
    ensures IsOrder(Ending(n, tail), n)
  {
    var others := Others(n, tail);
    assert forall k | 0 <= k < |others| :: others[k] in others;
    assert forall k | 0 <= k < |tail| :: tail[k] in tail;
    forall i: nat ensures i in Ending(n, tail) <==> i < n {
      assert i in Ending(n, tail) <==> i in others || i in tail;
    }
  }

  lemma {:induction false} LastOfTail(front: seq<nat>, tail: seq<nat>, hit: nat -> bool, j: nat)
    requires j < |tail| && hit(tail[j]) && forall k | j < k < |tail| :: !hit(tail[k])
    ensures Last(front + tail, hit) == Some(tail[j])
    decreases |tail|
  {
    var n := |tail| - 1;
    assert (front + tail)[..|front| + n] == front + tail[..n];
    if j < n {
      LastOfTail(front, tail[..n], hit, j);
    }
  }

  // ---- A cycle of saves ----

  ghost predicate Stores(saves: seq<Save>, i: nat, canonical: Key, requested: Key) {
    i < |saves| && EntryAt(saves, i).canonical == canonical && EntryAt(saves, i).requested == requested
  }

  ghost predicate AroundAt(saves: seq<Save>, canonicals: seq<Key>, requesteds: seq<Key>, across: seq<nat>,
                           onward: seq<nat>, i: nat)
    requires i < |canonicals| == |requesteds| == |across| == |onward|
  {
    && Stores(saves, across[i], canonicals[i], requesteds[i])
    && Stores(saves, onward[i], canonicals[After(i, |canonicals|)], requesteds[i])
  }

  /** Saves around a cycle: `across[i]` stores canonicals[i] with requesteds[i], `onward[i]` the next canonical key with
      requesteds[i]. */
  ghost predicate Around(saves: seq<Save>, canonicals: seq<Key>, requesteds: seq<Key>, across: seq<nat>,
                         onward: seq<nat>) {
    && |canonicals| == |requesteds| == |across| == |onward| && |canonicals| >= 2
    && InRange(across, |saves|) && InRange(onward, |saves|)
    && NoRepeats(canonicals) && NoRepeats(requesteds)
    && forall i | 0 <= i < |canonicals| :: AroundAt(saves, canonicals, requesteds, across, onward, i)
  }

  function After(i: nat, n: nat): nat {
    if i + 1 < n then i + 1 else 0
  }

  lemma SaveOfEdge(saves: seq<Save>, e: Edge<Key, Key>) returns (k: nat)
    requires e in KeyEdges(saves)
    ensures Stores(saves, k, e.canonical, e.requested)
  {
    var save :| save in saves && KeyPair(save) == e;
    k :| 0 <= k < |saves| && saves[k] == save;
    EntryHasKeys(saves, k);
  }

  /** Save `found[i]` stores the keys that edge `i` joins. */
  ghost predicate AllStore(saves: seq<Save>, edges: seq<Edge<Key, Key>>, found: seq<nat>) {
    && |found| == |edges| && InRange(found, |saves|)
    && forall i | 0 <= i < |edges| :: Stores(saves, found[i], edges[i].canonical, edges[i].requested)
  }

  lemma OneMoreStores(saves: seq<Save>, edges: seq<Edge<Key, Key>>, found: seq<nat>, k: nat)
    requires edges != [] && AllStore(saves, edges[..|edges| - 1], found)
    requires Stores(saves, k, edges[|edges| - 1].canonical, edges[|edges| - 1].requested)
    ensures AllStore(saves, edges, found + [k])
  {
    var init := edges[..|edges| - 1];
    assert forall i | 0 <= i < |init| :: init[i] == edges[i];
  }

  lemma {:induction false} SavesOfEdges(saves: seq<Save>, edges: seq<Edge<Key, Key>>) returns (found: seq<nat>)
    requires forall i | 0 <= i < |edges| :: edges[i] in KeyEdges(saves)
    ensures AllStore(saves, edges, found)
  {
    if edges == [] {
      found := [];
    } else {
      var init := SavesOfEdges(saves, edges[..|edges| - 1]);
      var k := SaveOfEdge(saves, edges[|edges| - 1]);
      OneMoreStores(saves, edges, init, k);
      found := init + [k];
    }
  }

  lemma CycleOfSaves(saves: seq<Save>, canonicals: seq<Key>, requesteds: seq<Key>)
    returns (across: seq<nat>, onward: seq<nat>)
    requires Cycle(KeyEdges(saves), canonicals, requesteds)
    ensures Around(saves, canonicals, requesteds, across, onward)
  {
    var n, edges := |canonicals|, KeyEdges(saves);
    var direct := seq(n, i requires 0 <= i < n => Edge(canonicals[i], requesteds[i]));
    var next := seq(n, i requires 0 <= i < n => Edge(canonicals[After(i, n)], requesteds[i]));
    forall i | 0 <= i < n ensures direct[i] in edges && next[i] in edges {
      assert Across(edges, canonicals, requesteds, i);
      assert i < n - 1 ==> Onward(edges, canonicals, requesteds, i);
    }
    across := SavesOfEdges(saves, direct);
    onward := SavesOfEdges(saves, next);
    forall i | 0 <= i < n ensures AroundAt(saves, canonicals, requesteds, across, onward, i) {
      assert Stores(saves, across[i], direct[i].canonical, direct[i].requested);
      assert Stores(saves, onward[i], next[i].canonical, next[i].requested);
    }
  }

  lemma AroundDistinct(saves: seq<Save>, canonicals: seq<Key>, requesteds: seq<Key>, across: seq<nat>, onward: seq<nat>)
    requires Around(saves, canonicals, requesteds, across, onward)
    ensures NoRepeats(across) && NoRepeats(onward)
  {
    forall j, k | 0 <= j < k < |across| ensures across[j] != across[k] && onward[j] != onward[k] {
      assert AroundAt(saves, canonicals, requesteds, across, onward, j);
      assert AroundAt(saves, canonicals, requesteds, across, onward, k);
      assert requesteds[j] != requesteds[k];
    }
  }

  ghost predicate TangledAt(saves: seq<Save>, canonicals: seq<Key>, requesteds: seq<Key>, across: seq<nat>, t: Tables,
                            i: nat)
    requires i < |canonicals| == |requesteds| == |across|
  {
    && across[i] < |saves| && RowAt(t, canonicals[i]) == Some(EntryAt(saves, across[i]).row)
    && MappingAt(t, requesteds[i]) == Some(canonicals[After(i, |canonicals|)])
  }

  /** What the tangle leaves: the rows of the saves across, and the mappings of the saves onward. */
  ghost predicate Tangled(saves: seq<Save>, canonicals: seq<Key>, requesteds: seq<Key>, across: seq<nat>, t: Tables) {
    && |canonicals| == |requesteds| == |across|
    && forall i | 0 <= i < |canonicals| :: TangledAt(saves, canonicals, requesteds, across, t, i)
  }

  lemma RowOfTail(t: Tables, saves: seq<Save>, tail: seq<nat>, i: nat)
    requires i < |tail| && InRange(tail, |saves|) && InRange(Ending(|saves|, tail), |saves|)
    requires forall k | i < k < |tail| :: EntryAt(saves, tail[k]).canonical != EntryAt(saves, tail[i]).canonical
    ensures RowAt(Serial(t, RowDeeds(saves), Ending(|saves|, tail)), EntryAt(saves, tail[i]).canonical) ==
            Some(EntryAt(saves, tail[i]).row)
  {
    var deeds, c := RowDeeds(saves), EntryAt(saves, tail[i]).canonical;
    LastOfTail(Others(|saves|, tail), tail, RowHit(deeds, c), i);
    SerialRow(t, deeds, Ending(|saves|, tail), c);
  }

  lemma MappingOfTail(t: Tables, saves: seq<Save>, tail: seq<nat>, i: nat)
    requires i < |tail| && InRange(tail, |saves|) && InRange(Ending(|saves|, tail), |saves|)
    requires forall k | i < k < |tail| :: EntryAt(saves, tail[k]).requested != EntryAt(saves, tail[i]).requested
    ensures MappingAt(Serial(t, MappingDeeds(saves), Ending(|saves|, tail)), EntryAt(saves, tail[i]).requested) ==
            Some(EntryAt(saves, tail[i]).canonical)
  {
    var deeds, r := MappingDeeds(saves), EntryAt(saves, tail[i]).requested;
    LastOfTail(Others(|saves|, tail), tail, MappingHit(deeds, r), i);
    SerialMapping(t, deeds, Ending(|saves|, tail), r);
  }

  lemma MappingsKeepRows(t: Tables, saves: seq<Save>, order: seq<nat>, c: Key)
    requires InRange(order, |saves|)
    ensures RowAt(Serial(t, MappingDeeds(saves), order), c) == RowAt(t, c)
  {
    SerialRow(t, MappingDeeds(saves), order, c);
  }

  function TangledTables(t: Tables, saves: seq<Save>, across: seq<nat>, onward: seq<nat>): Tables
    requires InRange(Ending(|saves|, across), |saves|) && InRange(Ending(|saves|, onward), |saves|)
  {
    Serial(Serial(t, RowDeeds(saves), Ending(|saves|, across)), MappingDeeds(saves), Ending(|saves|, onward))
  }

  lemma TangleArises(t: Tables, saves: seq<Save>, canonicals: seq<Key>, requesteds: seq<Key>, across: seq<nat>,
                     onward: seq<nat>, i: nat)
    requires Around(saves, canonicals, requesteds, across, onward) && i < |canonicals|
    requires InRange(Ending(|saves|, across), |saves|) && InRange(Ending(|saves|, onward), |saves|)
    ensures TangledAt(saves, canonicals, requesteds, across, TangledTables(t, saves, across, onward), i)
  {
    assert AroundAt(saves, canonicals, requesteds, across, onward, i);
    forall k | i < k < |canonicals|
      ensures EntryAt(saves, across[k]).canonical != EntryAt(saves, across[i]).canonical
      ensures EntryAt(saves, onward[k]).requested != EntryAt(saves, onward[i]).requested
    {
      assert AroundAt(saves, canonicals, requesteds, across, onward, k);
      assert canonicals[i] != canonicals[k] && requesteds[i] != requesteds[k];
    }
    RowOfTail(t, saves, across, i);
    var rows := Serial(t, RowDeeds(saves), Ending(|saves|, across));
    MappingsKeepRows(rows, saves, Ending(|saves|, onward), canonicals[i]);
    MappingOfTail(rows, saves, onward, i);
  }

  /** Around a cycle the saves can be interleaved into a tangle. */
  lemma TangleReachable(t: Tables, saves: seq<Save>, canonicals: seq<Key>, requesteds: seq<Key>, across: seq<nat>,
                        onward: seq<nat>)
    returns (run: seq<Move>, s': State)
    requires Around(saves, canonicals, requesteds, across, onward)
    ensures Leads(State(t, Started(saves)), run, s') && AreSaves(s'.threads, saves)
    ensures forall i | 0 <= i < |saves| :: s'.threads[i].saving == Finished(NoFault)
    ensures Tangled(saves, canonicals, requesteds, across, s'.tables)
  {
    AroundDistinct(saves, canonicals, requesteds, across, onward);
    var rows, mappings := Ending(|saves|, across), Ending(|saves|, onward);
    EndingIsOrder(|saves|, across);
    EndingIsOrder(|saves|, onward);
    RowsThenMappings(t, saves, rows, mappings);
    run, s' := Moves(rows) + Moves(mappings), MappingsWritten(Serial(t, RowDeeds(saves), rows), saves, mappings);
    assert s'.tables == TangledTables(t, saves, across, onward);
    TablesAreTangled(t, saves, canonicals, requesteds, across, onward);
    AllMapped(saves, mappings);
  }

  lemma TablesAreTangled(t: Tables, saves: seq<Save>, canonicals: seq<Key>, requesteds: seq<Key>, across: seq<nat>,
                         onward: seq<nat>)
    requires Around(saves, canonicals, requesteds, across, onward)
    requires InRange(Ending(|saves|, across), |saves|) && InRange(Ending(|saves|, onward), |saves|)
    ensures Tangled(saves, canonicals, requesteds, across, TangledTables(t, saves, across, onward))
  {
    forall i | 0 <= i < |canonicals|
      ensures TangledAt(saves, canonicals, requesteds, across, TangledTables(t, saves, across, onward), i)
    {
      TangleArises(t, saves, canonicals, requesteds, across, onward, i);
    }
  }

  lemma AllMapped(saves: seq<Save>, order: seq<nat>)
    requires IsOrder(order, |saves|)
    ensures
      var threads := ThreadsAt(saves, order, AtMap, Finished(NoFault));
      AreSaves(threads, saves) && forall i | 0 <= i < |saves| :: threads[i].saving == Finished(NoFault)
  {
    forall i: nat | i < |saves| ensures i in order {
    }
  }

  // ---- No order gives a tangle ----

  /** A row tells the URL that was requested. */
  lemma SameRowSameRequest(saves: seq<Save>, i: nat, j: nat)
    requires i < |saves| && j < |saves| && EntryAt(saves, i).row == EntryAt(saves, j).row
    ensures EntryAt(saves, i).requested == EntryAt(saves, j).requested
  {
    RowTellsRequest(saves[i].0, saves[i].1);
    RowTellsRequest(saves[j].0, saves[j].1);
  }

  lemma RowTellsRequest(p: SavablePage, at: Time)
    ensures StoredRow(p, at).parsedURL == p.requestedURL.value
  {
  }

  /** The deeds of complete saves. */
  function AllDeeds(saves: seq<Save>): seq<Deed> {
    seq(|saves|, i requires 0 <= i < |saves| => Deed(EntryAt(saves, i), true, true))
  }

  ghost predicate LastAt(order: seq<nat>, hit: nat -> bool, k: nat) {
    k < |order| && hit(order[k]) && forall j | k < j < |order| :: !hit(order[j])
  }

  lemma Before(order: seq<nat>, hit: nat -> bool, j: nat, k: nat)
    requires LastAt(order, hit, k) && j < |order| && hit(order[j]) && order[j] != order[k]
    ensures j < k
  {
  }

  /** An order that leaves a tangle. */
  ghost predicate LeavesTangle(t: Tables, saves: seq<Save>, canonicals: seq<Key>, requesteds: seq<Key>, across: seq<nat>,
                               onward: seq<nat>, order: seq<nat>) {
    && Around(saves, canonicals, requesteds, across, onward) && IsOrder(order, |saves|)
    && Tangled(saves, canonicals, requesteds, across, Serial(t, AllDeeds(saves), order))
  }

  /** Where `order` writes the row of a canonical key for the last time, by a save of the given requested key. */
  ghost predicate RowPlace(saves: seq<Save>, order: seq<nat>, canonical: Key, requested: Key, k: nat) {
    && LastAt(order, RowHit(AllDeeds(saves), canonical), k)
    && Stores(saves, order[k], canonical, requested)
  }

  lemma FindRowPlace(t: Tables, saves: seq<Save>, canonicals: seq<Key>, requesteds: seq<Key>, across: seq<nat>,
                     onward: seq<nat>, order: seq<nat>, i: nat)
    returns (k: nat)
    requires LeavesTangle(t, saves, canonicals, requesteds, across, onward, order) && i < |canonicals|
    ensures RowPlace(saves, order, canonicals[i], requesteds[i], k)
  {
    var hit := RowHit(AllDeeds(saves), canonicals[i]);
    assert AroundAt(saves, canonicals, requesteds, across, onward, i);
    assert TangledAt(saves, canonicals, requesteds, across, Serial(t, AllDeeds(saves), order), i);
    SerialRow(t, AllDeeds(saves), order, canonicals[i]);
    assert across[i] in order && hit(across[i]);
    LastFound(order, hit, across[i]);
    k := LastIndex(order, hit);
    SameRowSameRequest(saves, order[k], across[i]);
  }

  lemma FindMappingPlace(t: Tables, saves: seq<Save>, canonicals: seq<Key>, requesteds: seq<Key>, across: seq<nat>,
                         onward: seq<nat>, order: seq<nat>, i: nat)
    returns (k: nat)
    requires LeavesTangle(t, saves, canonicals, requesteds, across, onward, order) && i < |canonicals|
    ensures LastAt(order, MappingHit(AllDeeds(saves), requesteds[i]), k)
    ensures Stores(saves, order[k], canonicals[After(i, |canonicals|)], requesteds[i])
  {
    var hit := MappingHit(AllDeeds(saves), requesteds[i]);
    assert AroundAt(saves, canonicals, requesteds, across, onward, i);
    assert TangledAt(saves, canonicals, requesteds, across, Serial(t, AllDeeds(saves), order), i);
    SerialMapping(t, AllDeeds(saves), order, requesteds[i]);
    assert onward[i] in order && hit(onward[i]);
    LastFound(order, hit, onward[i]);
    k := LastIndex(order, hit);
  }

  /** The last row at one canonical key of the cycle comes before the last row at the next. */
  lemma PlacesClimb(t: Tables, saves: seq<Save>, canonicals: seq<Key>, requesteds: seq<Key>, across: seq<nat>,
                    onward: seq<nat>, order: seq<nat>, i: nat, here: nat, next: nat)
    requires LeavesTangle(t, saves, canonicals, requesteds, across, onward, order) && i < |canonicals|
    requires RowPlace(saves, order, canonicals[i], requesteds[i], here)
    requires
      var j := After(i, |canonicals|);
      RowPlace(saves, order, canonicals[j], requesteds[j], next)
    ensures here < next
  {
    var q := FindMappingPlace(t, saves, canonicals, requesteds, across, onward, order, i);
    var j := After(i, |canonicals|);
    assert canonicals[i] != canonicals[j] && requesteds[i] != requesteds[j];
    Before(order, MappingHit(AllDeeds(saves), requesteds[i]), here, q);
    Before(order, RowHit(AllDeeds(saves), canonicals[j]), q, next);
  }

  lemma {:induction false} Highest(places: seq<nat>) returns (k: nat)
    requires places != []
    ensures k < |places| && forall i | 0 <= i < |places| :: places[i] <= places[k]
  {
    k := 0;
    if |places| > 1 {
      var n := |places| - 1;
      k := Highest(places[..n]);
      if places[k] < places[n] {
        k := n;
      }
    }
  }

  lemma {:induction false} FindRowPlaces(t: Tables, saves: seq<Save>, canonicals: seq<Key>, requesteds: seq<Key>,
                                         across: seq<nat>, onward: seq<nat>, order: seq<nat>, n: nat)
    returns (places: seq<nat>)
    requires LeavesTangle(t, saves, canonicals, requesteds, across, onward, order) && n <= |canonicals|
    ensures |places| == n
    ensures forall i | 0 <= i < n :: RowPlace(saves, order, canonicals[i], requesteds[i], places[i])
  {
    if n == 0 {
      places := [];
    } else {
      places := FindRowPlaces(t, saves, canonicals, requesteds, across, onward, order, n - 1);
      var k := FindRowPlace(t, saves, canonicals, requesteds, across, onward, order, n - 1);
      places := places + [k];
    }
  }

  /** Serial saves leave no tangle. */
  lemma NoSerialTangle(t: Tables, saves: seq<Save>, canonicals: seq<Key>, requesteds: seq<Key>, across: seq<nat>,
                       onward: seq<nat>, order: seq<nat>)
    ensures !LeavesTangle(t, saves, canonicals, requesteds, across, onward, order)
  {
    if LeavesTangle(t, saves, canonicals, requesteds, across, onward, order) {
      var n := |canonicals|;
      var places := FindRowPlaces(t, saves, canonicals, requesteds, across, onward, order, n);
      var k := Highest(places);
      PlacesClimb(t, saves, canonicals, requesteds, across, onward, order, k, places[k], places[After(k, n)]);
      assert false;
    }
  }

  // ---- Exactly when saves serialise ----

  /** However the saves are interleaved and wherever they break off, they end in the state of some serial order. */
  ghost predicate AlwaysSerialise(t: Tables, saves: seq<Save>) {
    forall run, s' | Leads(State(t, Started(saves)), run, s') && AllFinished(s') ::
      AreSaves(s'.threads, saves) && Serialises(t, saves, s')
  }

  /** Any number of saves always serialise, from any tables, if and only if the graph of their keys has no cycle. */
  lemma SerialiseExactlyWhenAcyclic(t: Tables, saves: seq<Save>)
    ensures AlwaysSerialise(t, saves) <==> Acyclic(KeyEdges(saves))
  {
    if Acyclic(KeyEdges(saves)) {
      forall run, s' | Leads(State(t, Started(saves)), run, s') && AllFinished(s')
        ensures AreSaves(s'.threads, saves) && Serialises(t, saves, s')
      {
        AcyclicSavesSerialise(t, saves, run, s');
      }
    } else {
      var canonicals, requesteds :| Cycle(KeyEdges(saves), canonicals, requesteds);
      CyclicSavesTangle(t, saves, canonicals, requesteds);
    }
  }

  lemma CyclicSavesTangle(t: Tables, saves: seq<Save>, canonicals: seq<Key>, requesteds: seq<Key>)
    requires Cycle(KeyEdges(saves), canonicals, requesteds)
    ensures !AlwaysSerialise(t, saves)
  {
    var across, onward := CycleOfSaves(saves, canonicals, requesteds);
    var run, s' := TangleReachable(t, saves, canonicals, requesteds, across, onward);
    assert DeedsOf(s'.threads) == AllDeeds(saves);
    forall order | IsOrder(order, |saves|) ensures s'.tables != SerialSaves(t, saves, s'.threads, order) {
      SerialSavesAreDeeds(t, saves, s'.threads, order);
      NoSerialTangle(t, saves, canonicals, requesteds, across, onward, order);
    }
    assert AllFinished(s') && !Serialises(t, saves, s');
  }

  /** Three saves, complete or broken off, always serialise. */
  lemma ThreeSavesSerialise(t: Tables, saves: seq<Save>)
    requires |saves| <= 3
    ensures AlwaysSerialise(t, saves)
  {
    KeyEdgesSize(saves);
    FewEdgesAreAcyclic(KeyEdges(saves));
    SerialiseExactlyWhenAcyclic(t, saves);
  }

  lemma {:induction false} KeyEdgesSize(saves: seq<Save>)
    ensures |KeyEdges(saves)| <= |saves|
  {
    if saves == [] {
      assert KeyEdges(saves) == {};
    } else {
      KeyEdgesSize(saves[1..]);
      assert KeyEdges(saves) == KeyEdges(saves[1..]) + {KeyPair(saves[0])};
    }
  }

  /** So do any number of saves of which no requested key is reported under two canonical keys, or no canonical key stands
      for two requested ones. */
  lemma AgreeingSavesSerialise(t: Tables, saves: seq<Save>)
    requires || (forall p, q | p in saves && q in saves && KeyPair(p).requested == KeyPair(q).requested ::
                   KeyPair(p).canonical == KeyPair(q).canonical)
             || (forall p, q | p in saves && q in saves && KeyPair(p).canonical == KeyPair(q).canonical ::
                   KeyPair(p).requested == KeyPair(q).requested)
    ensures AlwaysSerialise(t, saves)
  {
    SingleValuedIsAcyclic(KeyEdges(saves));
    SerialiseExactlyWhenAcyclic(t, saves);
  }

  // ---- Four pages that tangle ----

  const ONE := Url([1], [1], false, [], [])
  const TWO := Url([2], [2], false, [], [])

  function PageOf(canonical: Url, requested: Url): SavablePage {
    BLANK.(canonicalURL := Some(canonical), requestedURL := Some(requested))
  }

  lemma KeysDiffer()
    ensures ONE.Key() != TWO.Key()
  {
    KeyBlock(ONE, 1);
    KeyBlock(TWO, 2);
  }

  lemma KeyBlock(u: Url, b: byte)
    requires u.hostname == [b] && b < 128
    ensures u.Key() / Keys.TWO_56 == b
  {
    Keys.KeyLayout(u.hostname, u.Text());
    OneByteSum(b);
  }

  lemma OneByteSum(b: byte)
    ensures Keys.ByteSum([b]) == b
  {
  }

  const FOUR: seq<Save> := [(PageOf(ONE, ONE), 0), (PageOf(TWO, ONE), 0), (PageOf(TWO, TWO), 0), (PageOf(ONE, TWO), 0)]

  lemma PageEdge(saves: seq<Save>, i: nat, canonical: Url, requested: Url)
    requires i < |saves| && saves[i].0 == PageOf(canonical, requested)
    ensures Edge(canonical.Key(), requested.Key()) in KeyEdges(saves)
  {
    assert saves[i] in saves && KeyPair(saves[i]) == Edge(canonical.Key(), requested.Key());
  }

  lemma SquareIsCycle(edges: set<Edge<Key, Key>>, a: Key, b: Key)
    requires a != b && {Edge(a, a), Edge(b, a), Edge(b, b), Edge(a, b)} <= edges
    ensures Cycle(edges, [a, b], [a, b])
  {
    assert Across(edges, [a, b], [a, b], 0) && Across(edges, [a, b], [a, b], 1) && Onward(edges, [a, b], [a, b], 0);
  }

  /** Two URLs, each requested twice and reported once under itself and once under the other: the four saves can end, from
      any tables, in a state that no order of running them one after the other produces. */
  lemma FourSavesCanTangle(t: Tables)
    ensures !AlwaysSerialise(t, FOUR)
  {
    KeysDiffer();
    PageEdge(FOUR, 0, ONE, ONE);
    PageEdge(FOUR, 1, TWO, ONE);
    PageEdge(FOUR, 2, TWO, TWO);
    PageEdge(FOUR, 3, ONE, TWO);
    SquareIsCycle(KeyEdges(FOUR), ONE.Key(), TWO.Key());
    CyclicSavesTangle(t, FOUR, [ONE.Key(), TWO.Key()], [ONE.Key(), TWO.Key()]);
  }
}
