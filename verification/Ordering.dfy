/** Strict total orders, their lexicographic lifting to sequences, and the sorted listing of a finite set.
    Query encoding sorts parameter names with it, and the domain table is read in its order. */
module Ordering {

  ghost predicate StrictTotal<T(!new)>(lt: (T, T) -> bool) {
    && (forall x :: !lt(x, x))
    && (forall x, y, z :: lt(x, y) && lt(y, z) ==> lt(x, z))
    && (forall x, y :: x == y || lt(x, y) || lt(y, x))
  }

  ghost predicate NoRepeats<T>(s: seq<T>) {
    forall i, j | 0 <= i < j < |s| :: s[i] != s[j]
  }

  predicate LexLt<T(==)>(lt: (T, T) -> bool, a: seq<T>, b: seq<T>) {
    if b == [] then false
    else if a == [] then true
    else if a[0] == b[0] then LexLt(lt, a[1..], b[1..])
    else lt(a[0], b[0])
  }

  ghost predicate SameUpTo(a: seq<int>, b: seq<int>, k: nat) {
    k <= |a| && k <= |b| && forall j | 0 <= j < k :: a[j] == b[j]
  }

  /** The order of texts by the numbers of their characters: a proper prefix comes first, and otherwise the text with the
      smaller number where the two first differ. */
  ghost predicate Precedes(a: seq<int>, b: seq<int>) {
    exists k: nat :: SameUpTo(a, b, k) && k < |b| && (k == |a| || a[k] < b[k])
  }

  lemma PrecedesCons(x: int, a: seq<int>, b: seq<int>)
    ensures Precedes([x] + a, [x] + b) <==> Precedes(a, b)
  {
    var xa, xb := [x] + a, [x] + b;
    if k: nat :| SameUpTo(xa, xb, k) && k < |xb| && (k == |xa| || xa[k] < xb[k]) {
      assert forall j | 0 <= j < k - 1 :: a[j] == xa[j + 1] && b[j] == xb[j + 1];
      assert SameUpTo(a, b, k - 1);
    }
    if k: nat :| SameUpTo(a, b, k) && k < |b| && (k == |a| || a[k] < b[k]) {
      assert SameUpTo(xa, xb, k + 1);
    }
  }

  lemma {:induction false} LexTransitive<T(!new)>(lt: (T, T) -> bool, a: seq<T>, b: seq<T>, c: seq<T>)
    requires StrictTotal(lt)
    requires LexLt(lt, a, b) && LexLt(lt, b, c)
    ensures LexLt(lt, a, c)
  {
    if a != [] && a[0] == b[0] && b[0] == c[0] {
      LexTransitive(lt, a[1..], b[1..], c[1..]);
    }
  }

  lemma {:induction false} LexIrreflexive<T(!new)>(lt: (T, T) -> bool, a: seq<T>)
    ensures !LexLt(lt, a, a)
  {
    if a != [] {
      LexIrreflexive(lt, a[1..]);
    }
  }

  lemma {:induction false} LexConnected<T(!new)>(lt: (T, T) -> bool, a: seq<T>, b: seq<T>)
    requires StrictTotal(lt)
    ensures a == b || LexLt(lt, a, b) || LexLt(lt, b, a)
  {
    if a != [] && b != [] && a[0] == b[0] {
      LexConnected(lt, a[1..], b[1..]);
      assert a == [a[0]] + a[1..] && b == [b[0]] + b[1..];
    }
  }

  /** The lexicographic lifting of a strict total order is one. */
  lemma LexStrictTotal<T(!new)>(lt: (T, T) -> bool, lex: (seq<T>, seq<T>) -> bool)
    requires StrictTotal(lt)
    requires forall a, b :: lex(a, b) == LexLt(lt, a, b)
    ensures StrictTotal(lex)
  {
    forall a ensures !lex(a, a) {
      LexIrreflexive(lt, a);
    }
    forall a, b, c | lex(a, b) && lex(b, c) ensures lex(a, c) {
      LexTransitive(lt, a, b, c);
    }
    forall a, b ensures a == b || lex(a, b) || lex(b, a) {
      LexConnected(lt, a, b);
    }
  }

  ghost predicate IsMin<T>(lt: (T, T) -> bool, m: T, s: set<T>) {
    m in s && forall x | x in s :: x == m || lt(m, x)
  }

  lemma {:induction false} MinExists<T(!new)>(lt: (T, T) -> bool, s: set<T>)
    requires StrictTotal(lt) && s != {}
    ensures exists m :: IsMin(lt, m, s)
  {
    var x :| x in s;
    if s == {x} {
      assert IsMin(lt, x, s);
    } else {
      MinExists(lt, s - {x});
      var m :| IsMin(lt, m, s - {x});
      assert IsMin(lt, if lt(m, x) then m else x, s);
    }
  }

  /** The elements of `s` in ascending order, each once. */
  function SortedSeq<T(!new, ==)>(lt: (T, T) -> bool, s: set<T>): (r: seq<T>)
    requires StrictTotal(lt)
    ensures |r| == |s|
    ensures forall x :: x in r <==> x in s
    ensures Ascending(lt, r)
  {
    if s == {} then []
    else
      MinExists(lt, s);
      assert forall m, m' :: IsMin(lt, m, s) && IsMin(lt, m', s) ==> m == m';
      var m :| m in s && forall x | x in s :: x == m || lt(m, x);
      [m] + SortedSeq(lt, s - {m})
  }

  ghost predicate Ascending<T>(lt: (T, T) -> bool, r: seq<T>) {
    forall i, j | 0 <= i < j < |r| :: lt(r[i], r[j])
  }

  /** A finite set has only one ascending listing. */
  lemma {:induction false} AscendingUnique<T(!new)>(lt: (T, T) -> bool, a: seq<T>, b: seq<T>)
    requires StrictTotal(lt)
    requires Ascending(lt, a) && Ascending(lt, b)
    requires forall x :: x in a <==> x in b
    ensures a == b
  {
    assert (a != [] ==> a[0] in a) && (b != [] ==> b[0] in b);
    if a != [] {
      assert a[0] in b && b[0] in a;
      assert a[0] == b[0];
      forall x ensures x in a[1..] <==> x in b[1..] {
        if x in a[1..] {
          var i :| 1 <= i < |a| && a[i] == x;
          assert lt(a[0], x) && x in b;
        }
        if x in b[1..] {
          var i :| 1 <= i < |b| && b[i] == x;
          assert lt(b[0], x) && x in a;
        }
      }
      AscendingUnique(lt, a[1..], b[1..]);
      assert a == [a[0]] + a[1..] && b == [b[0]] + b[1..];
    }
  }

  /** The positions of the elements with a property, in order. */
  function Positions<T>(xs: seq<T>, p: T -> bool): seq<nat> {
    if xs == [] then [] else Positions(xs[..|xs| - 1], p) + if p(xs[|xs| - 1]) then [|xs| - 1] else []
  }

  ghost predicate Ascends(at: seq<nat>) {
    forall j, k | 0 <= j < k < |at| :: at[j] < at[k]
  }

  lemma {:induction false} PositionsAre<T>(xs: seq<T>, p: T -> bool)
    ensures Ascends(Positions(xs, p)) && |Positions(xs, p)| <= |xs|
    ensures forall i: nat :: i in Positions(xs, p) <==> i < |xs| && p(xs[i])
  {
    if xs != [] {
      var init, n := xs[..|xs| - 1], |xs| - 1;
      PositionsAre(init, p);
      assert forall j | 0 <= j < |Positions(init, p)| :: Positions(init, p)[j] in Positions(init, p);
      forall i: nat ensures i in Positions(xs, p) <==> i < |xs| && p(xs[i]) {
        assert i in Positions(xs, p) <==> i in Positions(init, p) || (i == n && p(xs[n]));
        assert i < n ==> init[i] == xs[i];
      }
    }
  }
}
