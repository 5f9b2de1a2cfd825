/** Sorting a set of positions by a strict order, as std::sort does with the comparators of
    cluster_linearize.h. */
module Sorting {
  import opened Sets

  ghost predicate StrictOrder(s: set<nat>, less: (nat, nat) -> bool) {
    && (forall x, y :: x in s && y in s && x != y ==> less(x, y) != less(y, x))
    && (forall x, y, z :: x in s && y in s && z in s && less(x, y) && less(y, z) ==> less(x, z))
  }

  ghost predicate SortedBy(r: seq<nat>, less: (nat, nat) -> bool) {
    forall i, j :: 0 <= i < j < |r| ==> less(r[i], r[j])
  }

  method SortBy(s: set<nat>, less: (nat, nat) -> bool) returns (r: seq<nat>)
    requires StrictOrder(s, less)
    ensures Distinct(r) && SetOf(r) == s && SortedBy(r, less)
  {
    r := [];
    var rest := s;
    while rest != {}
      invariant rest <= s && SetOf(r) == s - rest
      invariant Distinct(r) && SortedBy(r, less)
    {
      var x := First(rest);
      rest := rest - {x};
      var k := 0;
      while k < |r| && less(r[k], x)
        invariant k <= |r|
        invariant forall i :: 0 <= i < k ==> less(r[i], x)
      {
        k := k + 1;
      }
      hide StrictOrder, Distinct, SortedBy, SetOf;
      InsertSorted(s, less, r, x, k);
      r := r[..k] + [x] + r[k..];
    }
  }

  lemma {:induction false} InsertSorted(s: set<nat>, less: (nat, nat) -> bool, r: seq<nat>, x: nat, k: nat)
    requires StrictOrder(s, less) && Distinct(r) && SortedBy(r, less) && SetOf(r) <= s && x in s && x !in SetOf(r) && k <= |r|
    requires (forall i :: 0 <= i < k ==> less(r[i], x)) && (k < |r| ==> !less(r[k], x))
    ensures var t := r[..k] + [x] + r[k..]; Distinct(t) && SortedBy(t, less) && SetOf(t) == SetOf(r) + {x}
  {
    Larger(s, less, r, x, k);
    hide StrictOrder;
    var t := r[..k] + [x] + r[k..];
    assert SortedBy(t, less) by {
      hide Distinct, SetOf;
      assert forall i :: 0 <= i < |t| ==> t[i] == if i < k then r[i] else if i == k then x else r[i - 1];
    }
    hide SortedBy;
    InsertDistinct(r, x, k);
  }

  lemma {:induction false} Larger(s: set<nat>, less: (nat, nat) -> bool, r: seq<nat>, x: nat, k: nat)
    requires StrictOrder(s, less) && SortedBy(r, less) && SetOf(r) <= s && x in s && x !in SetOf(r) && k <= |r|
    requires k < |r| ==> !less(r[k], x)
    ensures forall i :: k <= i < |r| ==> less(x, r[i])
  {
    forall i | k <= i < |r| ensures less(x, r[i]) {
      assert r[i] in SetOf(r) && r[k] in SetOf(r);
    }
  }

  lemma {:induction false} InsertDistinct(r: seq<nat>, x: nat, k: nat)
    requires Distinct(r) && x !in SetOf(r) && k <= |r|
    ensures var t := r[..k] + [x] + r[k..]; Distinct(t) && SetOf(t) == SetOf(r) + {x}
  {
    var t := r[..k] + [x] + r[k..];
    assert r == r[..k] + r[k..];
    assert x !in r by { assert x !in SetOf(r); }
    assert forall i :: 0 <= i < |t| ==> t[i] == if i < k then r[i] else if i == k then x else r[i - 1];
  }
}

/** The transaction graph of a cluster (src/cluster_linearize.h:27-312). */
module DepGraphs {
  import opened FeeFracs
  import opened Sets
  import opened Sorting
  import opened Graphs

  // ---------- what the read-only operations compute ----------

  /** Reversed dependencies, with fees negated: the graph PostLinearize's backward pass sees. */
  function Dual(g: Graph): Graph {
    Graph(seq(|g.entries|, i requires 0 <= i < |g.entries| =>
                Entry(FeeFrac(-g.entries[i].feerate.fee, g.entries[i].feerate.size),
                      g.entries[i].descendants, g.entries[i].ancestors)),
          g.used)
  }

  lemma {:induction false} DualValid(g: Graph)
    ensures g.Valid() ==> Dual(g).Valid()
    ensures g.Valid() && g.Acyclic() ==> Dual(g).Acyclic()
    ensures g.Sized() ==> Dual(g).Sized()
    ensures forall i: nat :: Dual(g).Anc(i) == g.Desc(i) && Dual(g).Desc(i) == g.Anc(i)
    ensures forall i: nat :: Dual(g).Rate(i) == FeeFrac(-g.Rate(i).fee, g.Rate(i).size)
  {
    var d := Dual(g);
    if g.Valid() {
      forall i, j | i in d.used && j in d.Anc(i) ensures d.Anc(j) <= d.Anc(i) {
        forall k | k in d.Anc(j) ensures k in d.Anc(i) {
          assert j in g.Anc(k) by { assert k in g.Desc(j) && j in g.used && k in g.used; }
          assert i in g.Anc(j);
          assert g.Anc(j) <= g.Anc(k);
        }
      }
    }
  }

  /** The direct parents of i: its proper ancestors that are not ancestors of another one. */
  ghost function Parents(g: Graph, i: nat): set<nat> {
    set p | p in g.Anc(i) - {i} && forall q :: q in g.Anc(i) - {i} && p in g.Anc(q) ==> q == p
  }

  /** A set of proper ancestors of i, none above another, that covers all of them. */
  ghost predicate ReducedCover(g: Graph, i: nat, r: set<nat>) {
    && r <= g.Anc(i) - {i}
    && NoneAbove(g, r, r)
    && Covers(g, r, g.Anc(i) - {i})
  }

  /** In an acyclic graph only the direct parents form such a set. */
  lemma {:induction false} ReducedCoverIsParents(g: Graph, i: nat, r: set<nat>)
    requires g.Valid() && g.Acyclic() && i in g.used && ReducedCover(g, i, r)
    ensures r == Parents(g, i)
  {
    forall p | p in r ensures p in Parents(g, i) {
      forall q | q in g.Anc(i) - {i} && p in g.Anc(q) ensures q == p {
        assert Above(g, q, r);
        var c :| c in r && q in g.Anc(c);
        assert p == c;
      }
    }
    forall p | p in Parents(g, i) ensures p in r {
      assert Above(g, p, r);
      var c :| c in r && p in g.Anc(c);
    }
  }

  ghost predicate Adjacent(g: Graph, a: nat, b: nat) { b in g.Anc(a) || b in g.Desc(a) }

  /** No dependency, in either direction, between `s` and the rest of `todo`. */
  ghost predicate Apart(g: Graph, todo: set<nat>, s: set<nat>) {
    s <= todo && forall a, b :: a in s && b in todo && Adjacent(g, a, b) ==> b in s
  }

  /** `s` does not fall apart into two independent parts. */
  ghost predicate Connected(g: Graph, s: set<nat>) {
    forall t {:trigger Apart(g, s, t)} :: t != {} && Apart(g, s, t) ==> t == s
  }

  /** Everything adjacent to a member of `s`. */
  ghost function Neighbours(g: Graph, s: set<nat>): set<nat> {
    set a, b | a in s && b in g.Desc(a) + g.Anc(a) :: b
  }

  lemma {:induction false} AdjacentSym(g: Graph, a: nat, b: nat)
    requires g.Valid() && a in g.used && b in g.used
    ensures Adjacent(g, a, b) <==> Adjacent(g, b, a)
  {
  }

  lemma {:induction false} ApartComplement(g: Graph, todo: set<nat>, s: set<nat>)
    requires g.Valid() && todo <= g.used && Apart(g, todo, s)
    ensures Apart(g, todo, todo - s)
  {
    forall a, b | a in todo - s && b in todo && Adjacent(g, a, b) ensures b in todo - s {
      AdjacentSym(g, a, b);
    }
  }

  lemma {:induction false} ApartClosed(g: Graph, todo: set<nat>, s: set<nat>)
    requires Apart(g, todo, s)
    ensures g.Closed(todo, s)
  {
    forall i, j | i in s && j in g.Anc(i) * todo ensures j in s { assert Adjacent(g, i, j); }
  }

  /** Order used by AppendTopo: fewer ancestors first, then lower position. */
  predicate TopoLess(g: Graph, a: nat, b: nat) {
    if |g.Anc(a)| != |g.Anc(b)| then |g.Anc(a)| < |g.Anc(b)| else a < b
  }

  /** Sorting by number of ancestors puts every transaction after its ancestors. */
  lemma {:induction false} TopoSorted(g: Graph, l: seq<nat>)
    requires g.Valid() && g.Acyclic() && SetOf(l) <= g.used && Distinct(l)
    requires SortedBy(l, (a: nat, b: nat) => TopoLess(g, a, b))
    ensures g.Linearizes(SetOf(l), l)
  {
    var less := (a: nat, b: nat) => TopoLess(g, a, b);
    forall k | 0 <= k <= |l| ensures g.Closed(SetOf(l), SetOf(l[..k])) {
      forall x, a | x in SetOf(l[..k]) && a in g.Anc(x) && a in SetOf(l) ensures a in SetOf(l[..k]) {
        var i :| 0 <= i < k && l[i] == x;
        var j :| 0 <= j < |l| && l[j] == a;
        if a != x {
          assert g.Anc(a) <= g.Anc(x) && x !in g.Anc(a);
          SubsetSize(g.Anc(a), g.Anc(x));
          assert g.Anc(a) != g.Anc(x);
          assert forall m, n :: 0 <= m < n < |l| ==> less(l[m], l[n]);
        }
      }
    }
  }

  // ---------- the read-only operations ----------

  /** FeeRate(elems): combined fee and size of a set. */
  method FeeRateOf(g: Graph, elems: set<nat>) returns (r: FeeFrac)
    ensures r == g.SetRate(elems)
  {
    r := EMPTY;
    var rest := elems;
    while rest != {}
      invariant rest <= elems
      invariant r == g.SetRate(elems - rest)
    {
      var x := First(rest);
      SetRateAdd(g, elems - rest, x);
      assert elems - rest + {x} == elems - (rest - {x});
      r := r.Plus(g.Rate(x));
      rest := rest - {x};
    }
    assert elems - rest == elems;
  }

  /** Transaction a is a member of `some`, or an ancestor of one. */
  ghost predicate Above(g: Graph, a: nat, some: set<nat>) {
    exists p :: p in some && a in g.Anc(p)
  }

  /** Every member of `all` is above some member of `some`. */
  ghost predicate Covers(g: Graph, some: set<nat>, all: set<nat>) {
    forall a {:trigger Above(g, a, some)} :: a in all ==> Above(g, a, some)
  }

  /** No member of `lower` is above a different member of `upper`. */
  ghost predicate NoneAbove(g: Graph, lower: set<nat>, upper: set<nat>) {
    forall p, q :: p in upper && q in lower && p in g.Anc(q) ==> p == q
  }

  method GetReducedParents(g: Graph, i: nat) returns (parents: set<nat>)
    requires g.Valid() && i in g.used
    ensures ReducedCover(g, i, parents)
  {
    parents := g.Anc(i) - {i};
    var rest := parents;
    assert Covers(g, parents, parents) by { forall a | a in parents ensures Above(g, a, parents) { assert a in g.Anc(a); } }
    while rest != {}
      invariant rest <= g.Anc(i) - {i} && parents <= g.Anc(i) - {i}
      invariant NoneAbove(g, parents - rest, parents)
      invariant Covers(g, parents, g.Anc(i) - {i})
    {
      var parent := First(rest);
      if parent in parents {
        CoverKept(g, parents, parent, g.Anc(i) - {i});
        parents := parents - g.Anc(parent);
        parents := parents + {parent};
      }
      rest := rest - {parent};
    }
  }

  lemma {:induction false} CoverKept(g: Graph, parents: set<nat>, parent: nat, all: set<nat>)
    requires g.Valid() && all <= g.used && parents <= all && parent in parents && Covers(g, parents, all)
    ensures Covers(g, parents - g.Anc(parent) + {parent}, all)
  {
    var kept := parents - g.Anc(parent) + {parent};
    forall a | a in all ensures Above(g, a, kept) {
      assert Above(g, a, parents);
      var p :| p in parents && a in g.Anc(p);
      var q := if p in g.Anc(parent) then parent else p;
      assert q in kept && a in g.Anc(q);
    }
  }

  method GetReducedChildren(g: Graph, i: nat) returns (children: set<nat>)
    requires g.Valid() && i in g.used
    ensures ReducedCover(Dual(g), i, children)
  {
    DualValid(g);
    children := GetReducedParents(Dual(g), i);
  }

  /** `r` and `toAdd` lie inside every independent part of `todo` that holds `first`, and r holds
      all neighbours of what was already expanded. */
  ghost predicate Explored(g: Graph, todo: set<nat>, first: nat, r: set<nat>, toAdd: set<nat>) {
    && r <= todo && toAdd <= todo && first in r + toAdd && (toAdd <= r || r == {})
    && (forall a, b :: a in r - toAdd && b in todo && Adjacent(g, a, b) ==> b in r)
    && (forall t {:trigger Apart(g, todo, t)} :: first in t && Apart(g, todo, t) ==> r + toAdd <= t)
  }

  /** The connected component of `todo` that holds its first transaction. */
  method FindConnectedComponent(g: Graph, todo: set<nat>) returns (r: set<nat>)
    requires g.Valid() && todo <= g.used
    ensures Apart(g, todo, r) && Connected(g, r)
    ensures todo != {} ==> First(todo) in r
  {
    if todo == {} { return todo; }
    r := ComponentOf(g, todo, First(todo));
  }

  method ComponentOf(g: Graph, todo: set<nat>, first: nat) returns (r: set<nat>)
    requires g.Valid() && todo <= g.used && first in todo
    ensures first in r && Apart(g, todo, r) && Connected(g, r)
  {
    var toAdd := {first};
    r := {};
    while toAdd != {}
      invariant Explored(g, todo, first, r, toAdd)
      decreases |todo - r| + if r == {} then 1 else |toAdd|
    {
      var grown := AddNeighbours(g, r, toAdd);
      ReachStep(g, todo, first, r, toAdd, grown * todo);
      StillToReach(todo, r, grown * todo);
      toAdd := grown * todo - r;
      r := grown * todo;
    }
    ComponentWhole(g, todo, first, r);
  }

  method AddNeighbours(g: Graph, start: set<nat>, toAdd: set<nat>) returns (r: set<nat>)
    ensures r == start + Neighbours(g, toAdd)
  {
    r := start;
    var rest := toAdd;
    assert Neighbours(g, toAdd - rest) == {};
    while rest != {}
      invariant rest <= toAdd
      invariant r == start + Neighbours(g, toAdd - rest)
    {
      var add := First(rest);
      r := r + g.Desc(add);
      r := r + g.Anc(add);
      NeighboursAdd(g, toAdd - rest, add);
      rest := rest - {add};
      assert toAdd - rest == toAdd - (rest + {add}) + {add};
    }
    assert toAdd - rest == toAdd;
  }

  lemma {:induction false} NeighboursAdd(g: Graph, s: set<nat>, x: nat)
    ensures Neighbours(g, s + {x}) == Neighbours(g, s) + g.Desc(x) + g.Anc(x)
  {
    forall b | b in g.Desc(x) + g.Anc(x) ensures b in Neighbours(g, s + {x}) { assert x in s + {x}; }
  }

  lemma {:induction false} StillToReach(todo: set<nat>, before: set<nat>, after: set<nat>)
    requires before <= after <= todo
    ensures |todo - before| == |todo - after| + |after - before|
  {
    assert todo - before == (todo - after) + (after - before);
  }

  lemma {:induction false} ReachStep(g: Graph, todo: set<nat>, first: nat, before: set<nat>, was: set<nat>, after: set<nat>)
    requires g.Valid() && todo <= g.used && was != {}
    requires Explored(g, todo, first, before, was)
    requires after == (before + Neighbours(g, was)) * todo
    ensures Explored(g, todo, first, after, after - before)
    ensures before <= after && after != {}
  {
    forall a | a in was ensures a in after {
      assert a in g.Desc(a) + g.Anc(a);
      assert a in Neighbours(g, was);
    }
    forall a, b | a in before && b in todo && Adjacent(g, a, b) ensures b in after {
      if a in was {
        assert b in g.Desc(a) + g.Anc(a);
        assert b in Neighbours(g, was);
      }
    }
    forall t | first in t && Apart(g, todo, t) ensures after <= t {
      forall b | b in after ensures b in t {
        if b !in before {
          var a :| a in was && b in g.Desc(a) + g.Anc(a);
          assert Adjacent(g, a, b);
        }
      }
    }
  }

  lemma {:induction false} ComponentWhole(g: Graph, todo: set<nat>, first: nat, r: set<nat>)
    requires g.Valid() && todo <= g.used && Explored(g, todo, first, r, {})
    ensures Apart(g, todo, r) && Connected(g, r)
  {
    forall t | t != {} && Apart(g, r, t) ensures t == r {
      ApartComplement(g, r, t);
      var half := if first in t then t else r - t;
      assert Apart(g, todo, half);
      assert r <= half;
    }
  }

  method IsConnected(g: Graph, subset: set<nat>) returns (b: bool)
    requires g.Valid() && subset <= g.used
    ensures b <==> Connected(g, subset)
  {
    var c := FindConnectedComponent(g, subset);
    b := c == subset;
    if !b { assert c != {} && Apart(g, subset, c); }
  }

  /** AppendTopo: append the transactions of `select` in an order that respects dependencies. */
  method AppendTopo(g: Graph, list: seq<nat>, select: set<nat>) returns (r: seq<nat>)
    requires g.Valid() && g.Acyclic() && select <= g.used
    ensures |list| <= |r| && r[..|list|] == list
    ensures g.Linearizes(select, r[|list|..])
  {
    var less := (a: nat, b: nat) => TopoLess(g, a, b);
    var t := SortBy(select, less);
    TopoSorted(g, t);
    r := list + t;
    assert r[|list|..] == t;
  }

  // ---------- the operations that change the graph ----------

  /** All ancestors of the given parents. */
  ghost function AncestorsOf(g: Graph, parents: set<nat>): set<nat> {
    set p, a | p in parents && a in g.Anc(p) :: a
  }

  /** The graph with `parents` added as dependencies of `child`. */
  ghost function Linked(g: Graph, parents: set<nat>, child: nat): Graph {
    var extra := AncestorsOf(g, parents) - g.Anc(child);
    Graph(seq(|g.entries|, i requires 0 <= i < |g.entries| =>
                Entry(g.entries[i].feerate,
                      if i in g.Desc(child) then g.entries[i].ancestors + extra else g.entries[i].ancestors,
                      if i in extra then g.entries[i].descendants + g.Desc(child) else g.entries[i].descendants)),
          g.used)
  }

  lemma {:induction false} LinkedNothing(g: Graph, parents: set<nat>, child: nat)
    requires AncestorsOf(g, parents) - g.Anc(child) == {}
    ensures Linked(g, parents, child) == g
  {
    var h := Linked(g, parents, child);
    forall i | 0 <= i < |g.entries| ensures h.entries[i] == g.entries[i] {
      assert g.entries[i].ancestors + (AncestorsOf(g, parents) - g.Anc(child)) == g.entries[i].ancestors;
    }
    assert h.entries == g.entries;
  }

  ghost predicate Extends(g: Graph, h: Graph) {
    h.used == g.used && forall i :: i in g.used ==> g.Anc(i) <= h.Anc(i)
  }

  /** `h` is the least valid graph that keeps every dependency of `g` and has the new ones. */
  ghost predicate LeastExtension(g: Graph, parents: set<nat>, child: nat, h: Graph) {
    && h.Valid() && Extends(g, h) && parents <= h.Anc(child)
    && forall k: Graph :: k.Valid() && Extends(g, k) && parents <= k.Anc(child) ==> Extends(h, k)
  }

  lemma {:induction false} LinkedIsLeast(g: Graph, parents: set<nat>, child: nat)
    requires g.Valid() && child in g.used && parents <= g.used
    ensures LeastExtension(g, parents, child, Linked(g, parents, child))
  {
    var h := Linked(g, parents, child);
    var extra := AncestorsOf(g, parents) - g.Anc(child);
    LinkedValid(g, parents, child);
    forall p | p in parents ensures p in h.Anc(child) { assert p in g.Anc(p); }
    forall k: Graph | k.Valid() && Extends(g, k) && parents <= k.Anc(child) ensures Extends(h, k) {
      forall i, a | i in g.used && a in h.Anc(i) ensures a in k.Anc(i) {
        if a !in g.Anc(i) {
          var p :| p in parents && a in g.Anc(p);
          assert child in g.Anc(i);
          assert k.Anc(child) <= k.Anc(i) && k.Anc(p) <= k.Anc(child);
        }
      }
    }
  }

  lemma {:induction false} LinkedValid(g: Graph, parents: set<nat>, child: nat)
    requires g.Valid() && child in g.used && parents <= g.used
    ensures Linked(g, parents, child).Valid()
  {
    var h := Linked(g, parents, child);
    var extra := AncestorsOf(g, parents) - g.Anc(child);
    assert extra <= g.used;
    forall i, j | i in h.used && j in h.used ensures j in h.Anc(i) <==> i in h.Desc(j) {
    }
    forall i, j | i in h.used && j in h.Anc(i) ensures h.Anc(j) <= h.Anc(i) {
      forall a | a in h.Anc(j) ensures a in h.Anc(i) {
        if a in g.Anc(j) {
          if j !in g.Anc(i) {
            var p :| p in parents && j in g.Anc(p);
            assert a in g.Anc(p);
            if a in g.Anc(child) { assert g.Anc(child) <= g.Anc(i); }
          }
        } else {
          // a was added to j, so child is an ancestor of j
          assert child in g.Anc(j);
          if j in g.Anc(i) { assert child in g.Anc(i); }
        }
      }
    }
  }

  method CollectAncestors(g: Graph, parents: set<nat>) returns (r: set<nat>)
    ensures r == AncestorsOf(g, parents)
  {
    r := {};
    var rest := parents;
    while rest != {}
      invariant rest <= parents
      invariant r == AncestorsOf(g, parents - rest)
    {
      var par := First(rest);
      r := r + g.Anc(par);
      assert AncestorsOf(g, parents - (rest - {par})) == AncestorsOf(g, parents - rest) + g.Anc(par);
      rest := rest - {par};
    }
    assert parents - rest == parents;
  }

  /** Parents that are ancestors of the child already add nothing. */
  lemma {:induction false} NewAncestors(g: Graph, parents: set<nat>, child: nat)
    requires g.Valid() && child in g.used && parents <= g.used
    ensures AncestorsOf(g, parents - g.Anc(child)) - g.Anc(child) == AncestorsOf(g, parents) - g.Anc(child)
  {
    forall a | a in AncestorsOf(g, parents) - g.Anc(child) ensures a in AncestorsOf(g, parents - g.Anc(child)) {
      var p :| p in parents && a in g.Anc(p);
      assert p !in g.Anc(child);
    }
  }

  method SpreadDescendants(es: seq<Entry>, to: set<nat>, child: nat) returns (r: seq<Entry>)
    requires child < |es| && child !in to && forall a :: a in to ==> a < |es|
    ensures |r| == |es|
    ensures forall i :: 0 <= i < |es| ==>
      r[i] == if i in to then es[i].(descendants := es[i].descendants + es[child].descendants) else es[i]
  {
    r := es;
    var rest := to;
    while rest != {}
      invariant rest <= to && |r| == |es|
      invariant forall i :: 0 <= i < |es| ==>
        r[i] == if i in to - rest then es[i].(descendants := es[i].descendants + es[child].descendants) else es[i]
    {
      var a := First(rest);
      r := r[a := r[a].(descendants := r[a].descendants + r[child].descendants)];
      rest := rest - {a};
    }
  }

  method SpreadAncestors(es: seq<Entry>, to: set<nat>, extra: set<nat>) returns (r: seq<Entry>)
    requires forall a :: a in to ==> a < |es|
    ensures |r| == |es|
    ensures forall i :: 0 <= i < |es| ==>
      r[i] == if i in to then es[i].(ancestors := es[i].ancestors + extra) else es[i]
  {
    r := es;
    var rest := to;
    while rest != {}
      invariant rest <= to && |r| == |es|
      invariant forall i :: 0 <= i < |es| ==>
        r[i] == if i in to - rest then es[i].(ancestors := es[i].ancestors + extra) else es[i]
    {
      var d := First(rest);
      r := r[d := r[d].(ancestors := r[d].ancestors + extra)];
      rest := rest - {d};
    }
  }

  /** Linking changes neither the transactions nor their fees and sizes. */
  lemma {:induction false} LinkedKeeps(g: Graph, parents: set<nat>, child: nat)
    ensures Linked(g, parents, child).used == g.used && |Linked(g, parents, child).entries| == |g.entries|
    ensures forall i: nat :: Linked(g, parents, child).Rate(i) == g.Rate(i)
  {
  }

  ghost predicate InRange(g: Graph, s: set<nat>) { forall a :: a in s ==> a < |g.entries| }

  lemma {:induction false} LinkRange(g: Graph, parents: set<nat>, child: nat)
    requires g.Valid() && child in g.used && parents <= g.used
    ensures InRange(g, {child} + g.Desc(child) + AncestorsOf(g, parents)) && child in g.Anc(child)
  {
  }

  method AddLinks(g: Graph, parents: set<nat>, child: nat) returns (h: Graph)
    requires InRange(g, {child} + g.Desc(child) + AncestorsOf(g, parents)) && child in g.Anc(child)
    requires AncestorsOf(g, parents - g.Anc(child)) - g.Anc(child) == AncestorsOf(g, parents) - g.Anc(child)
    ensures h == Linked(g, parents, child)
  {
    var parAnc := CollectAncestors(g, parents - g.Anc(child));
    parAnc := parAnc - g.Anc(child);
    if parAnc == {} {
      LinkedNothing(g, parents, child);
      return g;
    }
    var mid := SpreadDescendants(g.entries, parAnc, child);
    var es := SpreadAncestors(mid, mid[child].descendants, parAnc);
    h := Graph(es, g.used);
    LinkedIs(g, parents, child, es);
  }

  lemma {:induction false} LinkedIs(g: Graph, parents: set<nat>, child: nat, es: seq<Entry>)
    requires |es| == |g.entries|
    requires forall i :: 0 <= i < |es| ==>
      es[i] == Entry(g.entries[i].feerate,
        if i in g.Desc(child) then g.entries[i].ancestors + (AncestorsOf(g, parents) - g.Anc(child)) else g.entries[i].ancestors,
        if i in AncestorsOf(g, parents) - g.Anc(child) then g.entries[i].descendants + g.Desc(child) else g.entries[i].descendants)
    ensures Graph(es, g.used) == Linked(g, parents, child)
  {
    var h := Linked(g, parents, child);
    forall i | 0 <= i < |es| ensures es[i] == h.entries[i] {}
    assert es == h.entries;
  }

  class DepGraph {
    var entries: seq<Entry>
    var used: set<nat>

    ghost function View(): Graph reads this { Graph(entries, used) }

    /** The dependencies are closed, and no unused position is kept at the end. */
    ghost predicate Valid() reads this {
      View().Valid() && (entries != [] ==> |entries| - 1 in used)
    }

    constructor ()
      ensures Valid() && used == {} && entries == []
    {
      entries := [];
      used := {};
    }

    /** Add an unconnected transaction in the first free position; `capacity` is SetType::Size(). */
    method AddTransaction(feefrac: FeeFrac, capacity: nat) returns (idx: nat)
      requires Valid() && exists i: nat :: i < capacity && i !in used
      modifies this
      ensures Valid()
      ensures idx < capacity && idx !in old(used) && forall j: nat :: j < idx ==> j in old(used)
      ensures used == old(used) + {idx}
      ensures View().Rate(idx) == feefrac && View().Anc(idx) == {idx} == View().Desc(idx)
      ensures forall i :: i in old(used) ==> View().Rate(i) == old(View()).Rate(i)
      ensures forall i :: i in old(used) ==> View().Anc(i) == old(View()).Anc(i) && View().Desc(i) == old(View()).Desc(i)
    {
      var available := set i: nat | i < capacity && i !in used;
      ghost var free: nat :| free < capacity && free !in used;
      assert free in available;
      idx := First(available);
      forall j: nat | j < idx ensures j in used { assert j !in available; }
      assert |entries| !in used;
      if idx == |entries| {
        entries := entries + [Entry(feefrac, {idx}, {idx})];
      } else {
        entries := entries[idx := Entry(feefrac, {idx}, {idx})];
      }
      used := used + {idx};
    }

    /** Remove transactions; an ancestor beyond a removed parent stays an ancestor. */
    method RemoveTransactions(del: set<nat>)
      requires Valid()
      modifies this
      ensures Valid()
      ensures used == old(used) - del
      ensures forall i :: i in used ==> View().Rate(i) == old(View()).Rate(i)
      ensures forall i :: i in used ==> View().Anc(i) == old(View()).Anc(i) - del
      ensures forall i :: i in used ==> View().Desc(i) == old(View()).Desc(i) - del
    {
      used := used - del;
      while entries != [] && |entries| - 1 !in used
        invariant |entries| <= |old(entries)| && entries == old(entries)[..|entries|]
        invariant forall i :: i in used ==> i < |entries|
        invariant used == old(used) - del
        decreases |entries|
      {
        entries := entries[..|entries| - 1];
      }
      ghost var cut := entries;
      for k := 0 to |entries|
        invariant |entries| == |cut| && used == old(used) - del
        invariant forall i :: 0 <= i < k ==>
          entries[i] == Entry(cut[i].feerate, cut[i].ancestors * used, cut[i].descendants * used)
        invariant forall i :: k <= i < |entries| ==> entries[i] == cut[i]
      {
        entries := entries[k := entries[k].(ancestors := entries[k].ancestors * used)];
        entries := entries[k := entries[k].(descendants := entries[k].descendants * used)];
      }
    }

    /** Make `parents` dependencies of `child`. */
    method AddDependencies(parents: set<nat>, child: nat)
      requires Valid() && child in used && parents <= used
      modifies this
      ensures Valid()
      ensures used == old(used) && |entries| == |old(entries)|
      ensures forall i: nat :: View().Rate(i) == old(View()).Rate(i)
      ensures View() == Linked(old(View()), parents, child)
    {
      hide Linked, Graph.Valid;
      LinkRange(View(), parents, child);
      NewAncestors(View(), parents, child);
      var h := AddLinks(Graph(entries, used), parents, child);
      LinkedValid(View(), parents, child);
      LinkedKeeps(View(), parents, child);
      entries := h.entries;
    }

    /** Fill in the dependencies of one transaction by mapping its direct parents. */
    method AddMappedParents(g: Graph, mapping: seq<nat>, i: nat, ghost done: set<nat>)
      requires Valid() && g.Valid() && g.Acyclic() && i in g.used && Partial(g, mapping, View(), done)
      modifies this
      ensures Valid() && |entries| == |old(entries)|
      ensures Partial(g, mapping, View(), done + {i})
    {
      var reduced := GetReducedParents(g, i);
      ReducedCoverIsParents(g, i, reduced);
      ParentsMapped(g, mapping, View(), i);
      var parents := MapPositions(mapping, reduced);
      ghost var before := View();
      AddDependencies(parents, mapping[i]);
      PartialStep(g, mapping, before, done, i, View());
    }

    method AddAllParents(g: Graph, mapping: seq<nat>)
      requires Valid() && g.Valid() && g.Acyclic() && Partial(g, mapping, View(), {})
      modifies this
      ensures Valid() && |entries| == |old(entries)|
      ensures Partial(g, mapping, View(), g.used)
    {
      var todo := g.used;
      ghost var done: set<nat> := {};
      while todo != {}
        invariant done + todo == g.used && Valid() && |entries| == |old(entries)|
        invariant Partial(g, mapping, View(), done)
      {
        var i := First(todo);
        AddMappedParents(g, mapping, i, done);
        done := done + {i};
        todo := todo - {i};
      }
    }

    /** The graph renumbered by `mapping`, rebuilt from the direct parents only. */
    constructor Remap(g: Graph, mapping: seq<nat>, posRange: nat)
      requires g.Valid() && g.Acyclic() && Renumbering(g, mapping, posRange)
      ensures Valid() && |entries| == posRange
      ensures Renumbered(g, mapping, View())
    {
      entries := [];
      used := {};
      new;
      entries, used := PlaceTransactions(g, mapping, posRange);
      PlacedValid(g, mapping, View());
      AddAllParents(g, mapping);
      RemapComplete(g, mapping, View());
    }
  }

  method MapPositions(mapping: seq<nat>, s: set<nat>) returns (r: set<nat>)
    requires forall i :: i in s ==> i < |mapping|
    ensures r == Image(mapping, s)
  {
    r := {};
    var left := s;
    while left != {}
      invariant left <= s
      invariant r == Image(mapping, s - left)
    {
      var j := First(left);
      r := r + {mapping[j]};
      assert Image(mapping, s - (left - {j})) == Image(mapping, s - left) + {mapping[j]};
      left := left - {j};
    }
    assert s - left == s;
  }

  method PlaceTransactions(g: Graph, mapping: seq<nat>, posRange: nat) returns (entries: seq<Entry>, used: set<nat>)
    requires g.Valid() && Renumbering(g, mapping, posRange)
    ensures |entries| == posRange && used == Image(mapping, g.used)
    ensures forall i :: i in g.used ==> entries[mapping[i]] == Entry(g.Rate(i), {mapping[i]}, {mapping[i]})
  {
    entries := seq(posRange, _ => Entry(EMPTY, {}, {}));
    used := {};
    var rest := g.used;
    while rest != {}
      invariant rest <= g.used && |entries| == posRange
      invariant used == Image(mapping, g.used - rest)
      invariant forall i :: i in g.used - rest ==>
        entries[mapping[i]] == Entry(g.Rate(i), {mapping[i]}, {mapping[i]})
    {
      var i := First(rest);
      var n := mapping[i];
      entries := entries[n := entries[n].(ancestors := {n})];
      entries := entries[n := entries[n].(descendants := {n})];
      assert Image(mapping, g.used - (rest - {i})) == used + {n};
      used := used + {n};
      entries := entries[n := entries[n].(feerate := g.entries[i].feerate)];
      rest := rest - {i};
    }
    assert g.used - rest == g.used;
  }

  /** New positions are distinct, in range, and reach the end of the range. */
  ghost predicate Renumbering(g: Graph, mapping: seq<nat>, posRange: nat) {
    && |mapping| == |g.entries|
    && (forall i :: i in g.used ==> i < |mapping| && mapping[i] < posRange)
    && (forall i, j :: i in g.used && j in g.used && mapping[i] == mapping[j] ==> i == j)
    && (posRange > 0 ==> exists i :: i in g.used && mapping[i] == posRange - 1)
  }

  ghost function Image(mapping: seq<nat>, s: set<nat>): set<nat> {
    set i | i in s && i < |mapping| :: mapping[i]
  }

  /** Same transactions, fees, sizes and ancestors, up to renumbering. */
  ghost predicate Renumbered(g: Graph, mapping: seq<nat>, h: Graph) {
    && h.used == Image(mapping, g.used)
    && (forall i :: i in g.used ==> i < |mapping|)
    && (forall i, j :: i in g.used && j in g.used && mapping[i] == mapping[j] ==> i == j)
    && (forall i :: i in g.used ==> h.Rate(mapping[i]) == g.Rate(i) && h.Anc(mapping[i]) == Image(mapping, g.Anc(i)))
  }

  ghost predicate Within(g: Graph, mapping: seq<nat>, h: Graph) {
    forall i :: i in g.used && i < |mapping| ==> h.Anc(mapping[i]) <= Image(mapping, g.Anc(i))
  }

  /** The transactions are placed, no foreign dependency was added, and the parents of the
      transactions in `done` are there. */
  ghost predicate Partial(g: Graph, mapping: seq<nat>, h: Graph, done: set<nat>) {
    && (forall k :: k in g.used ==> k < |mapping|)
    && h.used == Image(mapping, g.used)
    && (forall i, j :: i in g.used && j in g.used && mapping[i] == mapping[j] ==> i == j)
    && (forall i :: i in g.used ==> h.Rate(mapping[i]) == g.Rate(i))
    && Within(g, mapping, h)
    && (forall i :: i in g.used && i in done ==> Image(mapping, Parents(g, i)) <= h.Anc(mapping[i]))
  }

  lemma {:induction false} PlacedValid(g: Graph, mapping: seq<nat>, h: Graph)
    requires g.Valid() && Renumbering(g, mapping, |h.entries|) && h.used == Image(mapping, g.used)
    requires forall i :: i in g.used ==> h.entries[mapping[i]] == Entry(g.Rate(i), {mapping[i]}, {mapping[i]})
    ensures h.Valid() && Partial(g, mapping, h, {}) && (h.entries != [] ==> |h.entries| - 1 in h.used)
  {
    forall n | n in h.used ensures n < |h.entries| && h.Anc(n) == {n} == h.Desc(n) {
      var i :| i in g.used && mapping[i] == n;
    }
    forall i | i in g.used ensures h.Anc(mapping[i]) <= Image(mapping, g.Anc(i)) {
      assert i in g.Anc(i);
    }
  }

  lemma {:induction false} ParentsMapped(g: Graph, mapping: seq<nat>, h: Graph, i: nat)
    requires g.Valid() && (forall k :: k in g.used ==> k < |mapping|)
    requires h.used == Image(mapping, g.used) && i in g.used
    ensures mapping[i] in h.used && Image(mapping, Parents(g, i)) <= h.used
    ensures forall p :: p in Parents(g, i) ==> p < |mapping|
  {
  }

  lemma {:induction false} PartialStep(g: Graph, mapping: seq<nat>, h: Graph, done: set<nat>, i: nat, h': Graph)
    requires g.Valid() && h.Valid() && i in g.used && Partial(g, mapping, h, done)
    requires mapping[i] in h.used && Image(mapping, Parents(g, i)) <= h.used
    requires h' == Linked(h, Image(mapping, Parents(g, i)), mapping[i])
    requires forall k: nat :: h'.Rate(k) == h.Rate(k)
    ensures Partial(g, mapping, h', done + {i})
  {
    WithinKept(g, mapping, h, i, h');
    LinkedIsLeast(h, Image(mapping, Parents(g, i)), mapping[i]);
    forall k | k in g.used && k in done + {i} ensures Image(mapping, Parents(g, k)) <= h'.Anc(mapping[k]) {
      assert mapping[k] in h.used;
    }
  }

  lemma {:induction false} WithinKept(g: Graph, mapping: seq<nat>, h: Graph, i: nat, h': Graph)
    requires g.Valid() && h.Valid() && (forall k :: k in g.used ==> k < |mapping|)
    requires forall x, y :: x in g.used && y in g.used && mapping[x] == mapping[y] ==> x == y
    requires h.used == Image(mapping, g.used) && i in g.used && Within(g, mapping, h)
    requires h' == Linked(h, Image(mapping, Parents(g, i)), mapping[i])
    ensures Within(g, mapping, h')
  {
    var m := mapping[i];
    forall k, a | k in g.used && a in h'.Anc(mapping[k]) ensures a in Image(mapping, g.Anc(k)) {
      if a !in h.Anc(mapping[k]) {
        assert mapping[k] in h.Desc(m);
        assert m in h.Anc(mapping[k]);
        assert m in Image(mapping, g.Anc(k));
        assert i in g.Anc(k);
        var p :| p in Image(mapping, Parents(g, i)) && a in h.Anc(p);
        var q :| q in Parents(g, i) && mapping[q] == p;
        assert a in Image(mapping, g.Anc(q));
        assert g.Anc(q) <= g.Anc(i) <= g.Anc(k);
      }
    }
  }

  lemma {:induction false} RemapComplete(g: Graph, mapping: seq<nat>, h: Graph)
    requires g.Valid() && g.Acyclic() && h.Valid() && Partial(g, mapping, h, g.used)
    ensures Renumbered(g, mapping, h)
  {
    forall i | i in g.used ensures Image(mapping, g.Anc(i)) <= h.Anc(mapping[i]) {
      AncestorsRebuilt(g, mapping, h, i);
    }
  }

  lemma {:induction false} AncestorsRebuilt(g: Graph, mapping: seq<nat>, h: Graph, i: nat)
    requires g.Valid() && g.Acyclic() && h.Valid() && (forall k :: k in g.used ==> k < |mapping|)
    requires h.used == Image(mapping, g.used)
    requires forall k :: k in g.used ==> Image(mapping, Parents(g, k)) <= h.Anc(mapping[k])
    requires i in g.used
    ensures Image(mapping, g.Anc(i)) <= h.Anc(mapping[i])
    decreases |g.Anc(i)|
  {
    forall a | a in g.Anc(i) ensures mapping[a] in h.Anc(mapping[i]) {
      if a == i {
        assert mapping[i] in h.used;
      } else {
        var p := ParentAbove(g, i, a);
        assert g.Anc(p) <= g.Anc(i) && i !in g.Anc(p);
        SubsetSize(g.Anc(p), g.Anc(i));
        AncestorsRebuilt(g, mapping, h, p);
        assert mapping[p] in h.Anc(mapping[i]);
        assert mapping[i] in h.used;
      }
    }
  }

  /** Every proper ancestor is an ancestor of some direct parent. */
  lemma {:induction false} ParentAbove(g: Graph, i: nat, a: nat) returns (p: nat)
    requires g.Valid() && g.Acyclic() && i in g.used && a in g.Anc(i) - {i}
    ensures p in Parents(g, i) && a in g.Anc(p)
    decreases |g.Anc(i)| - |g.Anc(a)|
  {
    if a in Parents(g, i) {
      p := a;
    } else {
      var q :| q in g.Anc(i) - {i} && a in g.Anc(q) && q != a;
      assert g.Anc(a) <= g.Anc(q) && q !in g.Anc(a);
      assert q in g.Anc(q);
      SubsetSize(g.Anc(a), g.Anc(q));
      SubsetSize(g.Anc(q), g.Anc(i));
      p := ParentAbove(g, i, q);
    }
  }
}
