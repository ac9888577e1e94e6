/** The graph of a group of saves: canonical keys on one side, requested keys on the other, and an edge for every pair of
    keys that some save stores. */
module KeyGraph {
  import opened Ordering

  datatype Edge<C, R> = Edge(canonical: C, requested: R)

  ghost predicate Across<C, R>(edges: set<Edge<C, R>>, canonicals: seq<C>, requesteds: seq<R>, i: nat)
    requires i < |canonicals| == |requesteds|
  {
    Edge(canonicals[i], requesteds[i]) in edges
  }

  ghost predicate Onward<C, R>(edges: set<Edge<C, R>>, canonicals: seq<C>, requesteds: seq<R>, i: nat)
    requires i + 1 < |canonicals| == |requesteds|
  {
    Edge(canonicals[i + 1], requesteds[i]) in edges
  }

  /** canonicals[0], requesteds[0], canonicals[1], ..., requesteds[n - 1] is a path. */
  ghost predicate Path<C, R>(edges: set<Edge<C, R>>, canonicals: seq<C>, requesteds: seq<R>) {
    && |canonicals| == |requesteds| && NoRepeats(canonicals) && NoRepeats(requesteds)
    && (forall i | 0 <= i < |canonicals| :: Across(edges, canonicals, requesteds, i))
    && (forall i | 0 <= i < |canonicals| - 1 :: Onward(edges, canonicals, requesteds, i))
  }

  /** A path of at least two keys on each side that closes. */
  ghost predicate Cycle<C, R>(edges: set<Edge<C, R>>, canonicals: seq<C>, requesteds: seq<R>) {
    && |canonicals| >= 2 && Path(edges, canonicals, requesteds)
    && Edge(canonicals[0], requesteds[|requesteds| - 1]) in edges
  }

  ghost predicate Acyclic<C(!new), R(!new)>(edges: set<Edge<C, R>>) {
    forall canonicals, requesteds :: !Cycle(edges, canonicals, requesteds)
  }

  lemma CycleInLarger<C, R>(small: set<Edge<C, R>>, large: set<Edge<C, R>>, canonicals: seq<C>, requesteds: seq<R>)
    requires small <= large && Cycle(small, canonicals, requesteds)
    ensures Cycle(large, canonicals, requesteds)
  {
    forall i | 0 <= i < |canonicals| ensures Across(large, canonicals, requesteds, i) {
      assert Across(small, canonicals, requesteds, i);
    }
    forall i | 0 <= i < |canonicals| - 1 ensures Onward(large, canonicals, requesteds, i) {
      assert Onward(small, canonicals, requesteds, i);
    }
  }

  lemma SubgraphAcyclic<C(!new), R(!new)>(small: set<Edge<C, R>>, large: set<Edge<C, R>>)
    requires small <= large && Acyclic(large)
    ensures Acyclic(small)
  {
    forall canonicals: seq<C>, requesteds: seq<R> | Cycle(small, canonicals, requesteds) ensures false {
      CycleInLarger(small, large, canonicals, requesteds);
    }
  }

  ghost predicate AloneAtCanonical<C, R>(edges: set<Edge<C, R>>, e: Edge<C, R>) {
    forall f | f in edges && f.canonical == e.canonical :: f == e
  }

  ghost predicate AloneAtRequested<C, R>(edges: set<Edge<C, R>>, e: Edge<C, R>) {
    forall f | f in edges && f.requested == e.requested :: f == e
  }

  ghost predicate Leaf<C, R>(edges: set<Edge<C, R>>, e: Edge<C, R>) {
    e in edges && (AloneAtCanonical(edges, e) || AloneAtRequested(edges, e))
  }

  ghost predicate NoLeaf<C(!new), R(!new)>(edges: set<Edge<C, R>>) {
    forall e :: !Leaf(edges, e)
  }

  lemma PathShrinks<C, R>(edges: set<Edge<C, R>>, canonicals: seq<C>, requesteds: seq<R>)
    requires Path(edges, canonicals, requesteds) && canonicals != []
    ensures
      var n := |canonicals| - 1;
      var last := Edge(canonicals[n], requesteds[n]);
      last in edges && Path(edges - {last}, canonicals[..n], requesteds[..n])
  {
    var n := |canonicals| - 1;
    var rest := edges - {Edge(canonicals[n], requesteds[n])};
    assert Across(edges, canonicals, requesteds, n);
    forall i | 0 <= i < n ensures Across(rest, canonicals[..n], requesteds[..n], i) {
      assert Across(edges, canonicals, requesteds, i);
    }
    forall i | 0 <= i < n - 1 ensures Onward(rest, canonicals[..n], requesteds[..n], i) {
      assert Onward(edges, canonicals, requesteds, i);
    }
  }

  lemma {:induction false} PathLength<C, R>(edges: set<Edge<C, R>>, canonicals: seq<C>, requesteds: seq<R>)
    requires Path(edges, canonicals, requesteds)
    ensures |canonicals| <= |edges|
    decreases |canonicals|
  {
    if canonicals != [] {
      var n := |canonicals| - 1;
      PathShrinks(edges, canonicals, requesteds);
      PathLength(edges - {Edge(canonicals[n], requesteds[n])}, canonicals[..n], requesteds[..n]);
    }
  }

  lemma PathTail<C, R>(edges: set<Edge<C, R>>, canonicals: seq<C>, requesteds: seq<R>, j: nat)
    requires Path(edges, canonicals, requesteds) && j <= |canonicals|
    ensures Path(edges, canonicals[j..], requesteds[j..])
  {
    forall i | 0 <= i < |canonicals| - j ensures Across(edges, canonicals[j..], requesteds[j..], i) {
      assert Across(edges, canonicals, requesteds, j + i);
    }
    forall i | 0 <= i < |canonicals| - j - 1 ensures Onward(edges, canonicals[j..], requesteds[j..], i) {
      assert Onward(edges, canonicals, requesteds, j + i);
    }
  }

  lemma PathGrows<C, R>(edges: set<Edge<C, R>>, canonicals: seq<C>, requesteds: seq<R>, canonical: C, requested: R)
    requires Path(edges, canonicals, requesteds) && canonicals != []
    requires canonical !in canonicals && requested !in requesteds
    requires Edge(canonical, requesteds[|requesteds| - 1]) in edges && Edge(canonical, requested) in edges
    ensures Path(edges, canonicals + [canonical], requesteds + [requested])
  {
    var cs, rs := canonicals + [canonical], requesteds + [requested];
    forall i | 0 <= i < |cs| ensures Across(edges, cs, rs, i) {
      if i < |canonicals| {
        assert Across(edges, canonicals, requesteds, i);
      }
    }
    forall i | 0 <= i < |cs| - 1 ensures Onward(edges, cs, rs, i) {
      if i < |canonicals| - 1 {
        assert Onward(edges, canonicals, requesteds, i);
      }
    }
  }

  /** A path whose last requested key also goes with a canonical key on the path closes there. */
  lemma ClosesAtCanonical<C, R>(edges: set<Edge<C, R>>, canonicals: seq<C>, requesteds: seq<R>, j: nat)
    requires Path(edges, canonicals, requesteds) && j < |canonicals| - 1
    requires Edge(canonicals[j], requesteds[|requesteds| - 1]) in edges
    ensures Cycle(edges, canonicals[j..], requesteds[j..])
  {
    PathTail(edges, canonicals, requesteds, j);
  }

  /** One whose next canonical key goes back to a requested key on the path closes there. */
  lemma ClosesAtRequested<C, R>(edges: set<Edge<C, R>>, canonicals: seq<C>, requesteds: seq<R>, canonical: C, j: nat)
    requires Path(edges, canonicals, requesteds) && j < |canonicals| - 1
    requires canonical !in canonicals
    requires Edge(canonical, requesteds[|requesteds| - 1]) in edges && Edge(canonical, requesteds[j]) in edges
    ensures Cycle(edges, canonicals[j + 1..] + [canonical], requesteds[j + 1..] + [requesteds[j]])
  {
    var cs, rs := canonicals[j + 1..], requesteds[j + 1..];
    PathTail(edges, canonicals, requesteds, j + 1);
    assert rs[|rs| - 1] == requesteds[|requesteds| - 1];
    PathGrows(edges, cs, rs, canonical, requesteds[j]);
    assert Onward(edges, canonicals, requesteds, j);
  }

  /** Walking on from the end of a path in a graph without leaves, one comes back to the path in the end. */
  lemma {:induction false} WalkCloses<C(!new), R(!new)>(edges: set<Edge<C, R>>, canonicals: seq<C>, requesteds: seq<R>)
    returns (cs: seq<C>, rs: seq<R>)
    requires NoLeaf(edges) && Path(edges, canonicals, requesteds) && canonicals != []
    ensures Cycle(edges, cs, rs)
    decreases |edges| - |canonicals|
  {
    var n := |canonicals| - 1;
    var last := Edge(canonicals[n], requesteds[n]);
    assert Across(edges, canonicals, requesteds, n) && !Leaf(edges, last);
    var e :| e in edges && e.requested == last.requested && e != last;
    if j :| 0 <= j < n && canonicals[j] == e.canonical {
      ClosesAtCanonical(edges, canonicals, requesteds, j);
      cs, rs := canonicals[j..], requesteds[j..];
    } else {
      assert !Leaf(edges, e);
      var f :| f in edges && f.canonical == e.canonical && f != e;
      if j :| 0 <= j < n && requesteds[j] == f.requested {
        ClosesAtRequested(edges, canonicals, requesteds, e.canonical, j);
        cs, rs := canonicals[j + 1..] + [e.canonical], requesteds[j + 1..] + [requesteds[j]];
      } else {
        PathGrows(edges, canonicals, requesteds, e.canonical, f.requested);
        PathLength(edges, canonicals + [e.canonical], requesteds + [f.requested]);
        cs, rs := WalkCloses(edges, canonicals + [e.canonical], requesteds + [f.requested]);
      }
    }
  }

  lemma EdgeIsPath<C, R>(edges: set<Edge<C, R>>, e: Edge<C, R>)
    requires e in edges
    ensures Path(edges, [e.canonical], [e.requested])
  {
  }

  /** A graph without cycles that has an edge has one that is alone at one of its ends. */
  lemma LeafExists<C(!new), R(!new)>(edges: set<Edge<C, R>>) returns (e: Edge<C, R>)
    requires Acyclic(edges) && edges != {}
    ensures Leaf(edges, e)
  {
    if NoLeaf(edges) {
      e :| e in edges;
      EdgeIsPath(edges, e);
      var cs, rs := WalkCloses(edges, [e.canonical], [e.requested]);
      assert false;
    } else {
      e :| Leaf(edges, e);
    }
  }

  /** On a cycle some requested key goes with two canonical keys and some canonical key with two requested keys. */
  lemma CycleBranches<C, R>(edges: set<Edge<C, R>>, canonicals: seq<C>, requesteds: seq<R>)
    returns (a: Edge<C, R>, b: Edge<C, R>, c: Edge<C, R>, d: Edge<C, R>)
    requires Cycle(edges, canonicals, requesteds)
    ensures {a, b, c, d} <= edges && |{a, b, c, d}| == 4
    ensures a.requested == b.requested && b.canonical == c.canonical
  {
    var n := |canonicals|;
    a, b := Edge(canonicals[0], requesteds[0]), Edge(canonicals[1], requesteds[0]);
    c := Edge(canonicals[1], requesteds[1]);
    d := Edge(if n == 2 then canonicals[0] else canonicals[2], requesteds[1]);
    assert Across(edges, canonicals, requesteds, 0) && Onward(edges, canonicals, requesteds, 0);
    assert Across(edges, canonicals, requesteds, 1) && (n > 2 ==> Onward(edges, canonicals, requesteds, 1));
    assert a != b && a != c && a != d && b != c && b != d && c != d;
  }

  lemma {:induction false} SubsetSize<T>(small: set<T>, large: set<T>)
    requires small <= large
    ensures |small| <= |large|
  {
    if small != {} {
      var e :| e in small;
      SubsetSize(small - {e}, large - {e});
    }
  }

  /** Three edges make no cycle. */
  lemma FewEdgesAreAcyclic<C(!new), R(!new)>(edges: set<Edge<C, R>>)
    requires |edges| <= 3
    ensures Acyclic(edges)
  {
    forall canonicals: seq<C>, requesteds: seq<R> | Cycle(edges, canonicals, requesteds) ensures false {
      var a, b, c, d := CycleBranches(edges, canonicals, requesteds);
      SubsetSize({a, b, c, d}, edges);
    }
  }

  /** Nor do edges of which no two share a requested key, or no two a canonical key. */
  lemma SingleValuedIsAcyclic<C(!new), R(!new)>(edges: set<Edge<C, R>>)
    requires (forall e | e in edges :: AloneAtRequested(edges, e)) || (forall e | e in edges :: AloneAtCanonical(edges, e))
    ensures Acyclic(edges)
  {
    forall canonicals: seq<C>, requesteds: seq<R> | Cycle(edges, canonicals, requesteds) ensures false {
      var a, b, c, d := CycleBranches(edges, canonicals, requesteds);
    }
  }
}
