/** SearchCandidateFinder: the search behind the original transaction numbering
    (src/cluster_linearize.h:621-999). */
module SearchFinders {
  import opened FeeFracs
  import opened Powers
  import opened Sets
  import opened Sorting
  import opened Graphs
  import opened Chunkings
  import opened Improvements
  import opened SearchBounds
  import opened Searches
  import opened DepGraphs

  /** Order of the internal numbering: higher feerate first, then smaller size, then position. */
  predicate FeerateLess(g: Graph, a: nat, b: nat) {
    if g.Rate(a).Better(g.Rate(b)) then true
    else if g.Rate(b).Better(g.Rate(a)) then false
    else a < b
  }

  lemma {:induction false} FeerateStrict(g: Graph)
    requires g.Sized()
    ensures StrictOrder(g.used, (a: nat, b: nat) => FeerateLess(g, a, b))
  {
    var less := (a: nat, b: nat) => FeerateLess(g, a, b);
    forall x, y, z | x in g.used && y in g.used && z in g.used && less(x, y) && less(y, z) ensures less(x, z) {
      FeerateTrans(g, x, y, z);
    }
    forall x, y | x in g.used && y in g.used && x != y ensures less(x, y) != less(y, x) {
      Order(g.Rate(x), g.Rate(y));
      Order(g.Rate(y), g.Rate(x));
    }
  }

  lemma {:induction false} FeerateTrans(g: Graph, x: nat, y: nat, z: nat)
    requires g.Rate(x).size > 0 && g.Rate(y).size > 0 && g.Rate(z).size > 0
    requires FeerateLess(g, x, y) && FeerateLess(g, y, z)
    ensures FeerateLess(g, x, z)
  {
    var a, b, c := g.Rate(x), g.Rate(y), g.Rate(z);
    Order(a, b); Order(b, a); Order(b, c); Order(c, b); Order(a, c); Order(c, a);
    hide FeeFrac.Better, FeeFrac.BetterOrEqual, FeeFrac.Higher, FeeFrac.Lower;
    BetterOrEqualTrans(a, b, c);
    BetterOrEqualTrans(c, b, a);
    BetterOrEqualTrans(b, c, a);
    BetterOrEqualTrans(c, a, b);
    BetterOrEqualTrans(a, c, b);
    BetterOrEqualTrans(b, a, c);
  }

  // ---------- what renumbering preserves ----------

  lemma {:induction false} ImageRate(g: Graph, m: seq<nat>, h: Graph, s: set<nat>)
    requires Renumbered(g, m, h) && s <= g.used
    ensures h.SetRate(Image(m, s)) == g.SetRate(s)
    decreases |s|
  {
    if s == {} {
      assert Image(m, s) == {};
    } else {
      var x := First(s);
      var rest := s - {x};
      ImageRate(g, m, h, rest);
      assert Image(m, s) == Image(m, rest) + {m[x]};
      assert m[x] !in Image(m, rest);
      SetRateAdd(h, Image(m, rest), m[x]);
    }
  }

  lemma {:induction false} ImageInj(g: Graph, m: seq<nat>, h: Graph, a: set<nat>, x: nat)
    requires Renumbered(g, m, h) && a <= g.used && x in g.used
    ensures m[x] in Image(m, a) <==> x in a
  {
  }

  /** Closed sets correspond. */
  lemma {:induction false} ImageClosed(g: Graph, m: seq<nat>, h: Graph, todo: set<nat>, s: set<nat>)
    requires g.Valid() && Renumbered(g, m, h) && s <= todo <= g.used
    ensures h.Closed(Image(m, todo), Image(m, s)) <==> g.Closed(todo, s)
  {
    var ht, hs := Image(m, todo), Image(m, s);
    if g.Closed(todo, s) {
      forall i, a | i in hs && a in h.Anc(i) * ht ensures a in hs {
        var x :| x in s && m[x] == i;
        var y :| y in g.Anc(x) && m[y] == a;
        var z :| z in todo && m[z] == a;
        assert y == z;
      }
    }
    if h.Closed(ht, hs) {
      forall x, y | x in s && y in g.Anc(x) * todo ensures y in s {
        assert m[y] in Image(m, g.Anc(x));
        assert m[y] in h.Anc(m[x]) * ht;
        assert m[y] in hs;
        ImageInj(g, m, h, s, y);
      }
    }
  }

  /** `back` undoes `m`. */
  ghost predicate Inverse(g: Graph, m: seq<nat>, back: seq<nat>) {
    && (forall i :: i in g.used ==> i < |m| && m[i] < |back| && back[m[i]] == i)
    && (forall k :: 0 <= k < |back| ==> back[k] in g.used && back[k] < |m| && m[back[k]] == k)
  }

  lemma {:induction false} ImageBack(g: Graph, m: seq<nat>, back: seq<nat>, h: Graph, t: set<nat>)
    requires Renumbered(g, m, h) && Inverse(g, m, back) && t <= h.used
    ensures Image(back, t) <= g.used && Image(m, Image(back, t)) == t
  {
    forall k | k in t ensures k in Image(m, Image(back, t)) {
      var i :| i in g.used && m[i] == k;
      assert back[k] == i;
      assert i in Image(back, t);
    }
    forall i | i in Image(back, t) ensures m[i] in t && i in g.used {
      var k :| k in t && k < |back| && back[k] == i;
    }
  }

  /** A best candidate of the internal graph is one of the original graph. */
  lemma {:induction false} BestTransfers(g: Graph, m: seq<nat>, h: Graph, todo: set<nat>, t: set<nat>)
    requires g.Valid() && Renumbered(g, m, h) && t <= todo <= g.used
    requires BestCandidate(h, Image(m, todo), Image(m, t))
    ensures BestCandidate(g, todo, t)
  {
    ImageRate(g, m, h, t);
    ImageClosed(g, m, h, todo, t);
    assert t != {} by { var none: set<nat> := {}; assert Image(m, none) == {}; }
    forall s | s != {} && g.Closed(todo, s) ensures !g.SetRate(s).Better(g.SetRate(t)) {
      ImageRate(g, m, h, s);
      ImageClosed(g, m, h, todo, s);
      var x :| x in s;
      assert m[x] in Image(m, s);
    }
  }

  /** Sorting by feerate and renumbering gives a graph whose positions are in that order. */
  lemma {:induction false} SortedGraph(g: Graph, m: seq<nat>, back: seq<nat>, h: Graph)
    requires g.Sized() && Renumbered(g, m, h) && Inverse(g, m, back)
    requires SortedBy(back, (a: nat, b: nat) => FeerateLess(g, a, b))
    ensures Sorted(h) && h.Sized()
  {
    var less := (a: nat, b: nat) => FeerateLess(g, a, b);
    forall i, j | i in h.used && j in h.used && i < j ensures !h.Rate(j).Better(h.Rate(i)) {
      var x :| x in g.used && m[x] == i;
      var y :| y in g.used && m[y] == j;
      assert less(back[i], back[j]);
      assert FeerateLess(g, x, y);
      Order(g.Rate(x), g.Rate(y));
      Order(g.Rate(y), g.Rate(x));
    }
    forall i | i in h.used ensures h.Rate(i).size > 0 {
      var x :| x in g.used && m[x] == i;
    }
  }

  lemma {:induction false} RenumberedAcyclic(g: Graph, m: seq<nat>, h: Graph)
    requires g.Valid() && g.Acyclic() && Renumbered(g, m, h)
    ensures h.Acyclic()
  {
    forall i, j | i in h.used && j in h.used && j in h.Anc(i) && i in h.Anc(j) ensures i == j {
      var x :| x in g.used && m[x] == i;
      var y :| y in g.used && m[y] == j;
      ImageInj(g, m, h, g.Anc(x), y);
      ImageInj(g, m, h, g.Anc(y), x);
    }
  }

  /** The reverse mapping of a list of distinct positions. */
  method InvertPositions(back: seq<nat>, range: nat) returns (m: seq<nat>)
    requires Distinct(back) && forall k :: 0 <= k < |back| ==> back[k] < range
    ensures |m| == range && forall k :: 0 <= k < |back| ==> m[back[k]] == k
  {
    m := seq(range, _ => 0);
    for i := 0 to |back|
      invariant |m| == range
      invariant forall k :: 0 <= k < i ==> m[back[k]] == k
    {
      m := m[back[i] := i];
    }
  }

  class SearchCandidateFinder {
    ghost const g: Graph
    const sorted: Graph
    const sortedToOriginal: seq<nat>
    const originalToSorted: seq<nat>
    var todo: set<nat>
    ghost var left: set<nat>

    /** The internal graph is the original one in feerate order; `left` is what remains, in
        original numbering. */
    ghost predicate Valid() reads this {
      && g.Cluster() && sorted.Cluster() && Sorted(sorted)
      && Renumbered(g, originalToSorted, sorted) && Inverse(g, originalToSorted, sortedToOriginal)
      && left <= g.used && todo == Image(originalToSorted, left)
    }

    constructor (graph: Graph)
      requires graph.Cluster()
      ensures Valid() && g == graph && left == graph.used
    {
      var less := (a: nat, b: nat) => FeerateLess(graph, a, b);
      FeerateStrict(graph);
      var back := SortBy(graph.used, less);
      PositionsInRange(graph, back);
      var m := InvertPositions(back, |graph.entries|);
      IsRenumbering(graph, m, back);
      var d := new DepGraph.Remap(graph, m, |back|);
      var h := Graph(d.entries, d.used);
      SortedGraph(graph, m, back, h);
      RenumberedAcyclic(graph, m, h);
      g, sorted, sortedToOriginal, originalToSorted := graph, h, back, m;
      todo := h.used;
      left := graph.used;
    }

    predicate AllDone() reads this { todo == {} }

    /** A topological subset of what is left, never below `best`, and the steps spent on it. */
    method FindCandidateSet(maxIterations: nat, best: SetInfo) returns (r: SetInfo, done: nat)
      requires Valid() && left != {} && Accurate(g, best) && g.Closed(left, best.transactions)
      ensures Accurate(g, r) && r.transactions != {} && g.Closed(left, r.transactions)
      ensures best.transactions != {} ==> r.feerate.BetterOrEqual(best.feerate)
      ensures done <= maxIterations && done <= Pow2(|left|) - 1
      ensures done < maxIterations ==> BestCandidate(g, left, r.transactions)
    {
      hide Pow2, BestCandidate, Accurate, FeeFrac.BetterOrEqual;
      SearchInput(g, originalToSorted, sorted, left, best);
      var internal := MapPositions(originalToSorted, best.transactions);
      var search := new Search(sorted, todo, SetInfo(internal, best.feerate), maxIterations);
      search.Run(maxIterations);
      search.Outcome(maxIterations);
      var found := MapPositions(sortedToOriginal, search.best.transactions);
      SearchOutput(g, originalToSorted, sortedToOriginal, sorted, left, search.best);
      r := SetInfo(found, search.best.feerate);
      done := maxIterations - search.left;
    }

    /** Drop `done` from what the next search may pick. */
    method MarkDone(done: set<nat>)
      requires Valid() && done != {} && done <= left
      modifies this
      ensures Valid() && left == old(left) - done
    {
      var internal := MapPositions(originalToSorted, done);
      ImageMinus(g, originalToSorted, sorted, left, done);
      todo := todo - internal;
      left := left - done;
    }
  }

  lemma {:induction false} PositionsInRange(g: Graph, back: seq<nat>)
    requires g.Valid() && SetOf(back) == g.used
    ensures forall k :: 0 <= k < |back| ==> back[k] < |g.entries|
  {
    forall k | 0 <= k < |back| ensures back[k] < |g.entries| { assert back[k] in SetOf(back); }
  }

  lemma {:induction false} IsRenumbering(g: Graph, m: seq<nat>, back: seq<nat>)
    requires g.Valid() && Distinct(back) && SetOf(back) == g.used && |m| == |g.entries|
    requires forall k :: 0 <= k < |back| ==> back[k] < |m| && m[back[k]] == k
    ensures Renumbering(g, m, |back|) && Inverse(g, m, back)
  {
    forall i | i in g.used ensures i < |m| && m[i] < |back| && back[m[i]] == i {
      var k :| 0 <= k < |back| && back[k] == i;
    }
    forall k | 0 <= k < |back| ensures back[k] in g.used { assert back[k] in SetOf(back); }
    if |back| > 0 { assert m[back[|back| - 1]] == |back| - 1; }
  }

  lemma {:induction false} ImageMinus(g: Graph, m: seq<nat>, h: Graph, a: set<nat>, b: set<nat>)
    requires Renumbered(g, m, h) && b <= a <= g.used
    ensures Image(m, a) - Image(m, b) == Image(m, a - b)
  {
    forall x | x in a ensures m[x] in Image(m, b) <==> x in b { ImageInj(g, m, h, b, x); }
  }

  lemma {:induction false} SearchInput(g: Graph, m: seq<nat>, h: Graph, left: set<nat>, best: SetInfo)
    requires g.Valid() && Renumbered(g, m, h) && left <= g.used && left != {}
    requires Accurate(g, best) && g.Closed(left, best.transactions)
    ensures Image(m, left) != {} && Image(m, left) <= h.used && |Image(m, left)| == |left|
    ensures Accurate(h, SetInfo(Image(m, best.transactions), best.feerate))
    ensures h.Closed(Image(m, left), Image(m, best.transactions))
    ensures best.transactions != {} ==> Image(m, best.transactions) != {}
    ensures forall i :: i in best.transactions ==> i < |m|
  {
    ImageRate(g, m, h, best.transactions);
    ImageClosed(g, m, h, left, best.transactions);
    ImageSize(g, m, h, left);
    ImageSize(g, m, h, best.transactions);
  }

  lemma {:induction false} ImageSize(g: Graph, m: seq<nat>, h: Graph, s: set<nat>)
    requires Renumbered(g, m, h) && s <= g.used
    ensures |Image(m, s)| == |s|
    decreases |s|
  {
    if s == {} {
      assert Image(m, s) == {};
    } else {
      var x := First(s);
      ImageSize(g, m, h, s - {x});
      ImageInj(g, m, h, s - {x}, x);
      assert Image(m, s) == Image(m, s - {x}) + {m[x]};
    }
  }

  lemma {:induction false} SearchOutput(g: Graph, m: seq<nat>, back: seq<nat>, h: Graph, left: set<nat>, best: SetInfo)
    requires g.Valid() && Renumbered(g, m, h) && Inverse(g, m, back) && left <= g.used
    requires Candidate(h, Image(m, left), best)
    ensures var t := Image(back, best.transactions);
            Accurate(g, SetInfo(t, best.feerate)) && t != {} && g.Closed(left, t)
    ensures BestCandidate(h, Image(m, left), best.transactions) ==> BestCandidate(g, left, Image(back, best.transactions))
  {
    var t := Image(back, best.transactions);
    assert best.transactions <= h.used;
    ImageBack(g, m, back, h, best.transactions);
    assert t <= left by {
      forall x | x in t ensures x in left { assert m[x] in Image(m, left); ImageInj(g, m, h, left, x); }
    }
    ImageRate(g, m, h, t);
    ImageClosed(g, m, h, left, t);
    ImageSize(g, m, h, t);
    if BestCandidate(h, Image(m, left), best.transactions) { BestTransfers(g, m, h, left, t); }
  }
}
