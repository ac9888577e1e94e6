/** Orders of saves: what the tables hold after saves done one after the other, and how an order is found that leaves given
    rows and mappings behind. */
module SaveOrders {
  import opened Wrappers
  import opened UrlStore
  import opened SaveInterleaving
  import opened KeyGraph

  /** What a save has written so far. */
  datatype Deed = Deed(entry: Entry, row: bool, mapping: bool)

  function Done(t: Tables, d: Deed): Tables {
    var u := if d.row then PutRow(t, d.entry) else t;
    if d.mapping then PutMapping(u, d.entry) else u
  }

  predicate InRange(order: seq<nat>, n: nat) {
    forall k | 0 <= k < |order| :: order[k] < n
  }

  /** The deeds done one after the other. */
  function Serial(t: Tables, deeds: seq<Deed>, order: seq<nat>): Tables
    requires InRange(order, |deeds|)
  {
    if order == [] then t
    else Done(Serial(t, deeds, order[..|order| - 1]), deeds[order[|order| - 1]])
  }

  function MappingAt(t: Tables, requested: Key): Option<Key> {
    if requested in t.idMap then Some(t.idMap[requested]) else None
  }

  lemma SameTables(t: Tables, u: Tables)
    requires forall c :: RowAt(t, c) == RowAt(u, c)
    requires forall r :: MappingAt(t, r) == MappingAt(u, r)
    ensures t == u
  {
    forall c ensures c in t.urls <==> c in u.urls
      ensures c in t.urls ==> t.urls[c] == u.urls[c]
    {
      assert RowAt(t, c) == RowAt(u, c);
    }
    forall r ensures r in t.idMap <==> r in u.idMap
      ensures r in t.idMap ==> t.idMap[r] == u.idMap[r]
    {
      assert MappingAt(t, r) == MappingAt(u, r);
    }
    assert t.urls == u.urls && t.idMap == u.idMap;
  }

  // ---- Who comes last ----

  /** The last of `order` that `hit` holds of. */
  function Last(order: seq<nat>, hit: nat -> bool): (i: Option<nat>)
    ensures i.Some? ==> i.value in order && hit(i.value)
  {
    if order == [] then None
    else if hit(order[|order| - 1]) then Some(order[|order| - 1])
    else Last(order[..|order| - 1], hit)
  }

  lemma {:induction false} LastFound(order: seq<nat>, hit: nat -> bool, i: nat)
    requires i in order && hit(i)
    ensures Last(order, hit).Some?
  {
    if i != order[|order| - 1] {
      LastFound(order[..|order| - 1], hit, i);
    }
  }

  lemma {:induction false} LastBehind(order: seq<nat>, hit: nat -> bool, x: nat)
    ensures Last([x] + order, hit) ==
            if Last(order, hit).Some? then Last(order, hit) else if hit(x) then Some(x) else None
  {
    if order == [] {
      assert [x][..0] == [];
    } else {
      LastBehind(order[..|order| - 1], hit, x);
      assert ([x] + order)[..|order|] == [x] + order[..|order| - 1];
    }
  }

  lemma LastInFront(order: seq<nat>, hit: nat -> bool, x: nat)
    ensures Last(order + [x], hit) == if hit(x) then Some(x) else Last(order, hit)
  {
    assert (order + [x])[..|order|] == order;
  }

  lemma {:induction false} LastIndex(order: seq<nat>, hit: nat -> bool) returns (k: nat)
    requires Last(order, hit).Some?
    ensures k < |order| && Last(order, hit) == Some(order[k])
    ensures forall j | k < j < |order| :: !hit(order[j])
  {
    var n := |order| - 1;
    if hit(order[n]) {
      k := n;
    } else {
      k := LastIndex(order[..n], hit);
    }
  }

  function RowHit(deeds: seq<Deed>, canonical: Key): nat -> bool {
    (i: nat) => i < |deeds| && deeds[i].row && deeds[i].entry.canonical == canonical
  }

  function MappingHit(deeds: seq<Deed>, requested: Key): nat -> bool {
    (i: nat) => i < |deeds| && deeds[i].mapping && deeds[i].entry.requested == requested
  }

  lemma {:induction false} SerialRow(t: Tables, deeds: seq<Deed>, order: seq<nat>, c: Key)
    requires InRange(order, |deeds|)
    ensures
      var i := Last(order, RowHit(deeds, c));
      RowAt(Serial(t, deeds, order), c) == if i.Some? then Some(deeds[i.value].entry.row) else RowAt(t, c)
  {
    if order != [] {
      SerialRow(t, deeds, order[..|order| - 1], c);
    }
  }

  lemma {:induction false} SerialMapping(t: Tables, deeds: seq<Deed>, order: seq<nat>, r: Key)
    requires InRange(order, |deeds|)
    ensures
      var i := Last(order, MappingHit(deeds, r));
      MappingAt(Serial(t, deeds, order), r) ==
      if i.Some? then Some(deeds[i.value].entry.canonical) else MappingAt(t, r)
  {
    if order != [] {
      SerialMapping(t, deeds, order[..|order| - 1], r);
    }
  }

  // ---- Arranging saves in an order ----

  /** Whose row is to stay under which canonical key, and to which canonical key which requested key is to lead. */
  datatype Goal = Goal(rows: map<Key, nat>, mappings: map<Key, Key>)

  ghost predicate Arranges(order: seq<nat>, who: set<nat>) {
    && (forall i :: i in order <==> i in who)
    && forall j, k | 0 <= j < k < |order| :: order[j] != order[k]
  }

  ghost predicate MapsTo(deeds: seq<Deed>, i: nat, requested: Key, canonical: Key) {
    MappingHit(deeds, requested)(i) && deeds[i].entry.canonical == canonical
  }

  /** Every part of the goal is the work of one of `who`. */
  ghost predicate Feasible(deeds: seq<Deed>, who: set<nat>, goal: Goal) {
    && (forall i | i in who :: i < |deeds| && (deeds[i].mapping ==> deeds[i].row))
    && (forall c | c in goal.rows :: goal.rows[c] in who && RowHit(deeds, c)(goal.rows[c]))
    && (forall r | r in goal.mappings :: exists i :: i in who && MapsTo(deeds, i, r, goal.mappings[r]))
  }

  ghost predicate MeetsRow(deeds: seq<Deed>, order: seq<nat>, c: Key, i: nat) {
    Last(order, RowHit(deeds, c)) == Some(i)
  }

  ghost predicate MeetsMapping(deeds: seq<Deed>, order: seq<nat>, r: Key, c: Key) {
    var i := Last(order, MappingHit(deeds, r));
    i.Some? && deeds[i.value].entry.canonical == c
  }

  ghost predicate Meets(deeds: seq<Deed>, order: seq<nat>, goal: Goal) {
    && (forall c | c in goal.rows :: MeetsRow(deeds, order, c, goal.rows[c]))
    && (forall r | r in goal.mappings :: MeetsMapping(deeds, order, r, goal.mappings[r]))
  }

  ghost function Edges(deeds: seq<Deed>, who: set<nat>): set<Edge<Key, Key>> {
    set i | i in who && i < |deeds| && deeds[i].mapping :: Edge(deeds[i].entry.canonical, deeds[i].entry.requested)
  }

  /** The goal as far as it is not settled by doing `d` last. */
  function Unsettled(goal: Goal, d: Deed): Goal {
    Goal(if d.row then goal.rows - {d.entry.canonical} else goal.rows,
         if d.mapping then goal.mappings - {d.entry.requested} else goal.mappings)
  }

  ghost predicate CanBeLast(deeds: seq<Deed>, goal: Goal, x: nat)
    requires x < |deeds|
  {
    var d := deeds[x];
    && (d.row && d.entry.canonical in goal.rows ==> goal.rows[d.entry.canonical] == x)
    && (d.mapping && d.entry.requested in goal.mappings ==> goal.mappings[d.entry.requested] == d.entry.canonical)
  }

  /** `x` may come first if the others can meet the rest of the goal, and what is dropped from it is met in any order. */
  ghost predicate CanBeFirst(deeds: seq<Deed>, who: set<nat>, goal: Goal, x: nat, rest: Goal) {
    && Feasible(deeds, who - {x}, rest)
    && (forall c | c in goal.rows && c in rest.rows :: rest.rows[c] == goal.rows[c])
    && (forall r | r in goal.mappings && r in rest.mappings :: rest.mappings[r] == goal.mappings[r])
    && (forall c, i | c in goal.rows && c !in rest.rows && i in who && RowHit(deeds, c)(i) :: i == x)
    && (forall r, i | r in goal.mappings && r !in rest.mappings && i in who && MappingHit(deeds, r)(i) ::
          deeds[i].entry.canonical == goal.mappings[r])
  }

  lemma LastIsFeasible(deeds: seq<Deed>, who: set<nat>, goal: Goal, x: nat)
    requires Feasible(deeds, who, goal) && x in who && CanBeLast(deeds, goal, x)
    ensures Feasible(deeds, who - {x}, Unsettled(goal, deeds[x]))
  {
    var rest := Unsettled(goal, deeds[x]);
    forall r | r in rest.mappings ensures exists i :: i in who - {x} && MapsTo(deeds, i, r, rest.mappings[r]) {
      var i :| i in who && MapsTo(deeds, i, r, goal.mappings[r]);
      assert i in who - {x};
    }
  }

  lemma LastMeets(deeds: seq<Deed>, order: seq<nat>, goal: Goal, x: nat)
    requires x < |deeds| && CanBeLast(deeds, goal, x) && Meets(deeds, order, Unsettled(goal, deeds[x]))
    ensures Meets(deeds, order + [x], goal)
  {
    var rest := Unsettled(goal, deeds[x]);
    forall c | c in goal.rows ensures MeetsRow(deeds, order + [x], c, goal.rows[c]) {
      LastInFront(order, RowHit(deeds, c), x);
      assert c in rest.rows ==> MeetsRow(deeds, order, c, rest.rows[c]);
    }
    forall r | r in goal.mappings ensures MeetsMapping(deeds, order + [x], r, goal.mappings[r]) {
      LastInFront(order, MappingHit(deeds, r), x);
      assert r in rest.mappings ==> MeetsMapping(deeds, order, r, rest.mappings[r]);
    }
  }

  lemma FirstMeetsRow(deeds: seq<Deed>, who: set<nat>, order: seq<nat>, goal: Goal, x: nat, rest: Goal, c: Key)
    requires Feasible(deeds, who, goal) && x in who && CanBeFirst(deeds, who, goal, x, rest)
    requires Arranges(order, who - {x}) && Meets(deeds, order, rest) && c in goal.rows
    ensures MeetsRow(deeds, [x] + order, c, goal.rows[c])
  {
    LastBehind(order, RowHit(deeds, c), x);
    if c in rest.rows {
      assert MeetsRow(deeds, order, c, rest.rows[c]);
    }
  }

  lemma FirstMeetsMapping(deeds: seq<Deed>, who: set<nat>, order: seq<nat>, goal: Goal, x: nat, rest: Goal, r: Key)
    requires Feasible(deeds, who, goal) && x in who && CanBeFirst(deeds, who, goal, x, rest)
    requires Arranges(order, who - {x}) && Meets(deeds, order, rest) && r in goal.mappings
    ensures MeetsMapping(deeds, [x] + order, r, goal.mappings[r])
  {
    LastBehind(order, MappingHit(deeds, r), x);
    if r in rest.mappings {
      assert MeetsMapping(deeds, order, r, rest.mappings[r]);
    } else {
      var i :| i in who && MapsTo(deeds, i, r, goal.mappings[r]);
      LastFound([x] + order, MappingHit(deeds, r), i);
    }
  }

  lemma FirstMeets(deeds: seq<Deed>, who: set<nat>, order: seq<nat>, goal: Goal, x: nat, rest: Goal)
    requires Feasible(deeds, who, goal) && x in who && CanBeFirst(deeds, who, goal, x, rest)
    requires Arranges(order, who - {x}) && Meets(deeds, order, rest)
    ensures Meets(deeds, [x] + order, goal)
  {
    forall c | c in goal.rows ensures MeetsRow(deeds, [x] + order, c, goal.rows[c]) {
      FirstMeetsRow(deeds, who, order, goal, x, rest, c);
    }
    forall r | r in goal.mappings ensures MeetsMapping(deeds, [x] + order, r, goal.mappings[r]) {
      FirstMeetsMapping(deeds, who, order, goal, x, rest, r);
    }
  }

  /** Some deed can be put first or last. */
  datatype Choice = First(x: nat, rest: Goal) | AtEnd(x: nat)

  ghost predicate Chosen(deeds: seq<Deed>, who: set<nat>, goal: Goal, choice: Choice) {
    && choice.x in who && choice.x < |deeds|
    && if choice.First? then CanBeFirst(deeds, who, goal, choice.x, choice.rest) else CanBeLast(deeds, goal, choice.x)
  }

  /** A deed that no part of the goal needs can come first. */
  lemma UnneededFirst(deeds: seq<Deed>, who: set<nat>, goal: Goal, x: nat)
    requires Feasible(deeds, who, goal) && x in who
    requires forall c | c in goal.rows :: goal.rows[c] != x
    requires forall r | r in goal.mappings :: !MapsTo(deeds, x, r, goal.mappings[r])
    ensures CanBeFirst(deeds, who, goal, x, goal)
  {
    forall r | r in goal.mappings ensures exists i :: i in who - {x} && MapsTo(deeds, i, r, goal.mappings[r]) {
      var i :| i in who && MapsTo(deeds, i, r, goal.mappings[r]);
      assert i in who - {x};
    }
  }

  /** Without mappings the wanted row of a canonical key can be written last, or else any row. */
  lemma ChooseRow(deeds: seq<Deed>, who: set<nat>, goal: Goal) returns (choice: Choice)
    requires Feasible(deeds, who, goal) && who != {} && forall i | i in who :: deeds[i].row && !deeds[i].mapping
    ensures Chosen(deeds, who, goal, choice)
  {
    var x :| x in who;
    var c := deeds[x].entry.canonical;
    choice := AtEnd(if c in goal.rows then goal.rows[c] else x);
  }

  lemma MappingNeedNotWait(deeds: seq<Deed>, who: set<nat>, goal: Goal, x: nat)
    requires Feasible(deeds, who, goal) && x in who && deeds[x].mapping
    requires deeds[x].entry.canonical in goal.rows && goal.rows[deeds[x].entry.canonical] != x
    requires deeds[x].entry.requested in goal.mappings ==>
               forall i | i in who && MappingHit(deeds, deeds[x].entry.requested)(i) ::
                 deeds[i].entry.canonical == goal.mappings[deeds[x].entry.requested]
    ensures CanBeFirst(deeds, who, goal, x, goal.(mappings := goal.mappings - {deeds[x].entry.requested}))
  {
    UnneededFirst(deeds, who, goal.(mappings := goal.mappings - {deeds[x].entry.requested}), x);
  }

  /** Where all mappings of a requested key lead to one canonical key, that part of the goal looks after itself. */
  lemma ChooseAtRequested(deeds: seq<Deed>, who: set<nat>, goal: Goal, x: nat) returns (choice: Choice)
    requires Feasible(deeds, who, goal) && x in who && deeds[x].mapping
    requires forall i | i in who && MappingHit(deeds, deeds[x].entry.requested)(i) ::
               deeds[i].entry.canonical == deeds[x].entry.canonical
    ensures Chosen(deeds, who, goal, choice)
  {
    var c, r := deeds[x].entry.canonical, deeds[x].entry.requested;
    if r in goal.mappings {
      var i :| i in who && MapsTo(deeds, i, r, goal.mappings[r]);
      assert goal.mappings[r] == c;
    }
    if c !in goal.rows || goal.rows[c] == x {
      choice := AtEnd(x);
    } else {
      MappingNeedNotWait(deeds, who, goal, x);
      choice := First(x, goal.(mappings := goal.mappings - {r}));
    }
  }

  /** Where all mappings to a canonical key are of one requested key: the case that its part of the goal is that key. */
  lemma ChooseLastAtCanonical(deeds: seq<Deed>, who: set<nat>, goal: Goal, x: nat) returns (choice: Choice)
    requires Feasible(deeds, who, goal) && x in who && deeds[x].mapping
    requires forall i | i in who && deeds[i].mapping && deeds[i].entry.canonical == deeds[x].entry.canonical ::
               deeds[i].entry.requested == deeds[x].entry.requested
    requires deeds[x].entry.requested in goal.mappings ==>
               goal.mappings[deeds[x].entry.requested] == deeds[x].entry.canonical
    ensures Chosen(deeds, who, goal, choice)
  {
    var c := deeds[x].entry.canonical;
    choice := AtEnd(if c in goal.rows then goal.rows[c] else x);
  }

  /** And the case that it is another: then no deed at that canonical key is needed but for its row. */
  lemma ChooseFirstAtCanonical(deeds: seq<Deed>, who: set<nat>, goal: Goal, x: nat) returns (choice: Choice)
    requires Feasible(deeds, who, goal) && x in who && deeds[x].mapping
    requires forall i | i in who && deeds[i].mapping && deeds[i].entry.canonical == deeds[x].entry.canonical ::
               deeds[i].entry.requested == deeds[x].entry.requested
    requires deeds[x].entry.requested in goal.mappings
    requires goal.mappings[deeds[x].entry.requested] != deeds[x].entry.canonical
    ensures Chosen(deeds, who, goal, choice)
  {
    var c := deeds[x].entry.canonical;
    if y :| y in who && RowHit(deeds, c)(y) && (c in goal.rows ==> goal.rows[c] != y) {
      UnneededFirst(deeds, who, goal, y);
      choice := First(y, goal);
    } else {
      assert c in goal.rows && goal.rows[c] == x;
      RowNeedNotWait(deeds, who, goal, x);
      choice := First(x, goal.(rows := goal.rows - {c}));
    }
  }

  lemma OtherRowsOf(deeds: seq<Deed>, who: set<nat>, goal: Goal, c: Key, x: nat)
    requires Feasible(deeds, who, goal) && RowHit(deeds, c)(x)
    ensures Feasible(deeds, who, goal.(rows := goal.rows - {c}))
    ensures forall d | d in goal.rows && d != c :: goal.rows[d] != x
  {
    forall d | d in goal.rows && d != c ensures goal.rows[d] != x {
      assert RowHit(deeds, d)(goal.rows[d]);
    }
  }

  /** What can be first when the row of a key is asked of nobody can be first when it alone writes that row. */
  lemma RowRestored(deeds: seq<Deed>, who: set<nat>, goal: Goal, c: Key, x: nat)
    requires
      var rest := goal.(rows := goal.rows - {c});
      CanBeFirst(deeds, who, rest, x, rest)
    requires forall i | i in who && RowHit(deeds, c)(i) :: i == x
    ensures CanBeFirst(deeds, who, goal, x, goal.(rows := goal.rows - {c}))
  {
  }

  lemma RowNeedNotWait(deeds: seq<Deed>, who: set<nat>, goal: Goal, x: nat)
    requires Feasible(deeds, who, goal) && x in who && deeds[x].mapping
    requires deeds[x].entry.requested in goal.mappings
    requires goal.mappings[deeds[x].entry.requested] != deeds[x].entry.canonical
    requires forall i | i in who && RowHit(deeds, deeds[x].entry.canonical)(i) :: i == x
    ensures CanBeFirst(deeds, who, goal, x, goal.(rows := goal.rows - {deeds[x].entry.canonical}))
  {
    var c := deeds[x].entry.canonical;
    OtherRowsOf(deeds, who, goal, c, x);
    UnneededFirst(deeds, who, goal.(rows := goal.rows - {c}), x);
    RowRestored(deeds, who, goal, c, x);
  }

  lemma ChooseMapping(deeds: seq<Deed>, who: set<nat>, goal: Goal) returns (choice: Choice)
    requires Feasible(deeds, who, goal) && Edges(deeds, who) != {} && Acyclic(Edges(deeds, who))
    ensures Chosen(deeds, who, goal, choice)
  {
    var e := LeafExists(Edges(deeds, who));
    var x :| x in who && x < |deeds| && deeds[x].mapping
             && e == Edge(deeds[x].entry.canonical, deeds[x].entry.requested);
    forall i | i in who && deeds[i].mapping
      ensures Edge(deeds[i].entry.canonical, deeds[i].entry.requested) in Edges(deeds, who)
    {
    }
    if AloneAtRequested(Edges(deeds, who), e) {
      choice := ChooseAtRequested(deeds, who, goal, x);
    } else if e.requested in goal.mappings && goal.mappings[e.requested] != e.canonical {
      choice := ChooseFirstAtCanonical(deeds, who, goal, x);
    } else {
      choice := ChooseLastAtCanonical(deeds, who, goal, x);
    }
  }

  lemma Choose(deeds: seq<Deed>, who: set<nat>, goal: Goal) returns (choice: Choice)
    requires Feasible(deeds, who, goal) && who != {} && Acyclic(Edges(deeds, who))
    ensures Chosen(deeds, who, goal, choice)
  {
    if x :| x in who && !deeds[x].row {
      UnneededFirst(deeds, who, goal, x);
      choice := First(x, goal);
    } else if x :| x in who && deeds[x].mapping {
      assert Edge(deeds[x].entry.canonical, deeds[x].entry.requested) in Edges(deeds, who);
      choice := ChooseMapping(deeds, who, goal);
    } else {
      choice := ChooseRow(deeds, who, goal);
    }
  }

  /** In an acyclic graph every feasible goal is met by some order, however often keys and pairs of keys recur, and whether
      or not a row comes with its mapping. */
  lemma {:induction false} Arrange(deeds: seq<Deed>, who: set<nat>, goal: Goal) returns (order: seq<nat>)
    requires Feasible(deeds, who, goal) && Acyclic(Edges(deeds, who))
    ensures Arranges(order, who) && Meets(deeds, order, goal)
    decreases |who|
  {
    if who == {} {
      order := [];
    } else {
      var choice := Choose(deeds, who, goal);
      var x := choice.x;
      SubgraphAcyclic(Edges(deeds, who - {x}), Edges(deeds, who));
      if choice.First? {
        var others := Arrange(deeds, who - {x}, choice.rest);
        order := [x] + others;
        FirstMeets(deeds, who, others, goal, x, choice.rest);
      } else {
        LastIsFeasible(deeds, who, goal, x);
        var others := Arrange(deeds, who - {x}, Unsettled(goal, deeds[x]));
        order := others + [x];
        LastMeets(deeds, others, goal, x);
      }
    }
  }
}
