/** On tree-shaped graphs one pass of PostLinearize is optimal
    (src/cluster_linearize.h:1104-1105, 1119-1121). */
module PostTrees {
  import opened FeeFracs
  import opened Sets
  import opened Graphs
  import opened Diagrams
  import opened DepGraphs
  import opened PostPasses

  /** Every transaction has at most one direct child. */
  ghost predicate OneChild(h: Graph) {
    forall x :: x in h.used ==> |Parents(Dual(h), x)| <= 1
  }

  /** The descendants of every transaction form a line. */
  ghost predicate Chains(h: Graph) {
    forall x, a, b :: x in h.used && a in h.Desc(x) && b in h.Desc(x) ==> a in h.Anc(b) || b in h.Anc(a)
  }

  /** The two descriptions of that tree shape agree. */
  lemma {:induction false} OneChildIffChains(h: Graph)
    requires h.Valid() && h.Acyclic()
    ensures OneChild(h) <==> Chains(h)
  {
    DualValid(h);
    if OneChild(h) {
      forall x, a, b | x in h.used && a in h.Desc(x) && b in h.Desc(x) ensures a in h.Anc(b) || b in h.Anc(a) {
        OneChildChain(h, x, a, b);
      }
    }
    if Chains(h) {
      forall x | x in h.used ensures |Parents(Dual(h), x)| <= 1 { ChainOneChild(h, x); }
    }
  }

  lemma {:induction false} OneChildChain(h: Graph, x: nat, a: nat, b: nat)
    requires h.Valid() && h.Acyclic() && OneChild(h) && x in h.used && a in h.Desc(x) && b in h.Desc(x)
    ensures a in h.Anc(b) || b in h.Anc(a)
    decreases |h.Desc(x)|
  {
    DualValid(h);
    if a != x && b != x {
      var p := SameParent(Dual(h), x, a, b);
      OneChildChain(h, p, a, b);
    }
  }

  lemma {:induction false} SameParent(d: Graph, x: nat, a: nat, b: nat) returns (p: nat)
    requires d.Valid() && d.Acyclic() && x in d.used && |Parents(d, x)| <= 1 && a in d.Anc(x) - {x} && b in d.Anc(x) - {x}
    ensures p in d.used && a in d.Anc(p) && b in d.Anc(p) && |d.Anc(p)| < |d.Anc(x)|
  {
    p := ParentAbove(d, x, a);
    var q := ParentAbove(d, x, b);
    SubsetSize({p, q}, Parents(d, x));
    assert p == q;
    assert d.Anc(p) <= d.Anc(x) && x !in d.Anc(p);
    SubsetSize(d.Anc(p), d.Anc(x));
    assert x in d.Anc(x);
  }

  lemma {:induction false} ChainOneChild(h: Graph, x: nat)
    requires h.Valid() && h.Acyclic() && Chains(h) && x in h.used
    ensures |Parents(Dual(h), x)| <= 1
  {
    DualValid(h);
    var d := Dual(h);
    var s := Parents(d, x);
    if s != {} {
      var p :| p in s;
      forall q | q in s ensures q == p {
        assert q in h.Desc(x) && p in h.Desc(x);
        assert q in h.Anc(p) || p in h.Anc(q);
        assert p in d.Anc(q) || q in d.Anc(p);
      }
      assert s == {p};
    }
  }

  // ---------- groups of a tree ----------

  /** All of s are ancestors of its member r. */
  ghost predicate Root(h: Graph, s: set<nat>, r: nat) {
    r in s && forall x :: x in s ==> x in h.Anc(r)
  }

  /** No topologically valid part of c has a higher feerate than c. */
  ghost predicate BestWhole(h: Graph, c: seq<nat>) {
    forall x :: x != {} && h.Closed(SetOf(c), x) ==> !h.SetRate(x).Higher(h.SeqRate(c))
  }

  ghost predicate TreeGroup(h: Graph, c: seq<nat>) {
    BestWhole(h, c) && exists r :: Root(h, SetOf(c), r)
  }

  ghost predicate AllTree(h: Graph, gs: seq<seq<nat>>) {
    forall k :: 0 <= k < |gs| ==> TreeGroup(h, gs[k])
  }

  /** The group that transaction i is growing: without i, its parts are below every group in
      front and below the group itself. */
  ghost predicate Growing(h: Graph, front: seq<seq<nat>>, c: seq<nat>, i: nat) {
    && Root(h, SetOf(c), i)
    && forall x :: h.Closed(SetOf(c), x) && i !in x ==>
         && (forall k :: 0 <= k < |front| ==> !h.SetRate(x).Higher(h.SeqRate(front[k])))
         && (x != {} ==> h.SetRate(x).Lower(h.SeqRate(c)))
  }

  lemma {:induction false} GrownIsTree(h: Graph, front: seq<seq<nat>>, c: seq<nat>, i: nat)
    requires h.Sized() && Distinct(c) && SetOf(c) <= h.used && Growing(h, front, c, i)
    ensures TreeGroup(h, c)
  {
    forall x | x != {} && h.Closed(SetOf(c), x) ensures !h.SetRate(x).Higher(h.SeqRate(c)) {
      if i in x {
        assert h.Anc(i) * SetOf(c) <= x;
        assert x == SetOf(c);
        SeqRateSet(h, c);
      } else {
        Order(h.SetRate(x), h.SeqRate(c));
      }
    }
  }

  /** The root of an earlier group whose member is an ancestor of i is one itself. */
  lemma {:induction false} RootAbove(h: Graph, p: set<nat>, r: nat, y: nat, i: nat)
    requires h.Valid() && Chains(h) && p <= h.used && i in h.used && Root(h, p, r) && y in p && y in h.Anc(i)
    requires i !in h.Anc(r)
    ensures forall x :: x in p ==> x in h.Anc(i)
  {
    assert r in h.Desc(y) && i in h.Desc(y);
    assert r in h.Anc(i);
    assert h.Anc(r) <= h.Anc(i);
  }

  /** A part of the merged group splits into a part of each. */
  lemma {:induction false} MergedParts(h: Graph, p: set<nat>, c: set<nat>, x: set<nat>)
    requires h.Closed(p + c, x)
    ensures h.Closed(p, x * p) && h.Closed(c, x * c)
  {
  }

  lemma {:induction false} MergeGrowing(h: Graph, front: seq<seq<nat>>, p: seq<nat>, c: seq<nat>, i: nat)
    requires h.Cluster() && Chains(h) && SetOf(p + c) <= h.used && Distinct(p + c)
    requires TreeGroup(h, p) && p != [] && c != [] && Growing(h, front + [p], c, i) && DependsOn(h, c, p)
    requires h.SeqRate(c).Higher(h.SeqRate(p))
    requires forall k :: 0 <= k < |front| ==> !h.SeqRate(p).Higher(h.SeqRate(front[k])) && h.SeqRate(front[k]).size > 0
    requires forall r :: r in p ==> i !in h.Anc(r)
    ensures Growing(h, front, p + c, i)
  {
    SetOfConcat(p, c);
    DistinctConcat(p, c);
    MergeRoot(h, p, c, i);
    SeqRateSize(h, p);
    SeqRateSize(h, c);
    SeqRateConcat(h, p, c);
    Mediant(h.SeqRate(p), h.SeqRate(c));
    Order(h.SeqRate(c), h.SeqRate(p));
    forall x | h.Closed(SetOf(p + c), x) && i !in x
      ensures forall k :: 0 <= k < |front| ==> !h.SetRate(x).Higher(h.SeqRate(front[k]))
      ensures x != {} ==> h.SetRate(x).Lower(h.SeqRate(p + c))
    {
      PartNotHigher(h, front, p, c, i, x);
      SetRateSize(h, x);
      forall k | 0 <= k < |front| ensures !h.SetRate(x).Higher(h.SeqRate(front[k])) {
        NotHigherTrans(h.SetRate(x), h.SeqRate(p), h.SeqRate(front[k]));
      }
      if x != {} { LowerTrans(h.SetRate(x), h.SeqRate(p), h.SeqRate(p + c)); }
    }
  }

  lemma {:induction false} MergeRoot(h: Graph, p: seq<nat>, c: seq<nat>, i: nat)
    requires h.Valid() && Chains(h) && SetOf(p + c) <= h.used && TreeGroup(h, p)
    requires Root(h, SetOf(c), i) && DependsOn(h, c, p) && forall r :: r in p ==> i !in h.Anc(r)
    ensures Root(h, SetOf(p + c), i)
  {
    SetOfConcat(p, c);
    var r :| Root(h, SetOf(p), r);
    var y :| y in AncestorsOf(h, SetOf(c)) * SetOf(p);
    var z :| z in SetOf(c) && y in h.Anc(z);
    assert h.Anc(z) <= h.Anc(i);
    RootAbove(h, SetOf(p), r, y, i);
  }

  lemma {:induction false} PartNotHigher(h: Graph, front: seq<seq<nat>>, p: seq<nat>, c: seq<nat>, i: nat, x: set<nat>)
    requires SetOf(p) !! SetOf(c) && TreeGroup(h, p) && Growing(h, front + [p], c, i)
    requires h.Closed(SetOf(p) + SetOf(c), x) && i !in x
    ensures !h.SetRate(x).Higher(h.SeqRate(p))
  {
    var xp, xc := x * SetOf(p), x * SetOf(c);
    MergedParts(h, SetOf(p), SetOf(c), x);
    SetRateUnion(h, xp, xc);
    assert xp + xc == x;
    assert (front + [p])[|front|] == p;
    assert !h.SetRate(xc).Higher(h.SeqRate(p));
    if xp == {} { assert h.SetRate(xp) == EMPTY; }
    PlusLower(h.SetRate(xp), h.SetRate(xc), h.SeqRate(p));
  }

  /** The state in which transaction i is settling. */
  ghost predicate TreeState(h: Graph, front: seq<seq<nat>>, c: seq<nat>, i: nat) {
    && SetOf(Flatten(front) + c) <= h.used && Distinct(Flatten(front) + c)
    && AllTight(h, front) && Tight(h, c) && NonIncreasing(h, front)
    && AllTree(h, front) && Growing(h, front, c, i)
    && forall r :: r in Flatten(front) ==> i !in h.Anc(r)
  }

  lemma {:induction false} TreeMerge(h: Graph, a: seq<seq<nat>>, p: seq<nat>, c: seq<nat>, i: nat)
    requires h.Cluster() && Chains(h) && TreeState(h, a + [p], c, i)
    requires h.SeqRate(c).Higher(h.SeqRate(p)) && DependsOn(h, c, p)
    ensures TreeState(h, a, p + c, i)
  {
    hide *;
    TreeUnpack(h, a, p, c, i);
    FrontRates(h, a, p);
    MergeGrowing(h, a, p, c, i);
    TightMerge(h, p, c);
    TreeFront(h, a, p);
    TreePack(h, a, p + c, i);
  }

  lemma {:induction false} TreeUnpack(h: Graph, a: seq<seq<nat>>, p: seq<nat>, c: seq<nat>, i: nat)
    requires h.Cluster() && TreeState(h, a + [p], c, i)
    ensures h.Sized() && SetOf(p + c) <= h.used && SetOf(Flatten(a) + (p + c)) <= h.used && SetOf(Flatten(a + [p])) <= h.used
    ensures Distinct(Flatten(a) + (p + c)) && Distinct(p + c)
    ensures Tight(h, p) && Tight(h, c) && p != [] && c != [] && TreeGroup(h, p) && Growing(h, a + [p], c, i)
    ensures AllTight(h, a + [p]) && NonIncreasing(h, a + [p]) && AllTree(h, a + [p])
    ensures (forall r :: r in p ==> i !in h.Anc(r)) && forall r :: r in Flatten(a) ==> i !in h.Anc(r)
  {
    hide Growing, TreeGroup, NonIncreasing, Graph.SeqRate, FeeFrac.Lower, FeeFrac.Higher, Graph.Valid, Graph.Acyclic;
    FlattenSnoc(a, p);
    assert (a + [p])[|a|] == p;
    SetOfThree(Flatten(a), p, c);
    assert Flatten(a + [p]) + c == Flatten(a) + (p + c);
    DistinctConcat(Flatten(a), p + c);
  }

  lemma {:induction false} TreePack(h: Graph, a: seq<seq<nat>>, c: seq<nat>, i: nat)
    requires SetOf(Flatten(a) + c) <= h.used && Distinct(Flatten(a) + c)
    requires AllTight(h, a) && Tight(h, c) && NonIncreasing(h, a) && AllTree(h, a) && Growing(h, a, c, i)
    requires forall r :: r in Flatten(a) ==> i !in h.Anc(r)
    ensures TreeState(h, a, c, i)
  {
  }

  lemma {:induction false} TreeSwap(h: Graph, a: seq<seq<nat>>, p: seq<nat>, c: seq<nat>, i: nat)
    requires TreeState(h, a + [p], c, i)
    ensures TreeState(h, a, c, i) && TreeGroup(h, p)
  {
    FlattenSnoc(a, p);
    assert (a + [p])[|a|] == p;
    SetOfThree(Flatten(a), p, c);
    DistinctConcat(Flatten(a) + p, c);
    DistinctConcat(Flatten(a), p);
    DistinctConcat(Flatten(a), c);
    GrowingLess(h, a, p, c, i);
    TreeFront(h, a, p);
  }

  lemma {:induction false} TreeFront(h: Graph, a: seq<seq<nat>>, p: seq<nat>)
    requires AllTight(h, a + [p]) && NonIncreasing(h, a + [p]) && AllTree(h, a + [p])
    ensures AllTight(h, a) && NonIncreasing(h, a) && AllTree(h, a)
  {
    var r := a + [p];
    assert forall k :: 0 <= k < |a| ==> r[k] == a[k];
  }

  lemma {:induction false} TreeStop(h: Graph, front: seq<seq<nat>>, c: seq<nat>, i: nat)
    requires h.Cluster() && TreeState(h, front, c, i)
    ensures AllTree(h, front) && TreeGroup(h, c)
  {
    hide Growing, TreeGroup, SetOf, Distinct, Tight, Flatten;
    SetOfConcat(Flatten(front), c);
    DistinctConcat(Flatten(front), c);
    GrownIsTree(h, front, c, i);
  }

  lemma {:induction false} SettleTree(h: Graph, front: seq<seq<nat>>, c: seq<nat>, i: nat)
    requires h.Cluster() && Chains(h) && TreeState(h, front, c, i)
    ensures AllTree(h, Settle(h, front, c))
  {
    hide TreeState, TreeGroup, Graph.Cluster, Graph.SeqRate, Chains, DependsOn, FeeFrac.Higher;
    if front == [] || !h.SeqRate(c).Higher(h.SeqRate(front[|front| - 1])) {
      TreeStop(h, front, c, i);
    } else {
      var n := |front| - 1;
      var a, p := front[..n], front[n];
      assert front == a + [p];
      if DependsOn(h, c, p) {
        TreeMerge(h, a, p, c, i);
        SettleTree(h, a, p + c, i);
      } else {
        TreeSwap(h, a, p, c, i);
        SettleTree(h, a, c, i);
      }
    }
  }

  lemma {:induction false} GrowingLess(h: Graph, a: seq<seq<nat>>, p: seq<nat>, c: seq<nat>, i: nat)
    requires Growing(h, a + [p], c, i)
    ensures Growing(h, a, c, i)
  {
    forall x | h.Closed(SetOf(c), x) && i !in x
      ensures forall k :: 0 <= k < |a| ==> !h.SetRate(x).Higher(h.SeqRate(a[k]))
    {
      forall k | 0 <= k < |a| ensures !h.SetRate(x).Higher(h.SeqRate(a[k])) { assert (a + [p])[k] == a[k]; }
    }
  }

  lemma {:induction false} FrontRates(h: Graph, a: seq<seq<nat>>, p: seq<nat>)
    requires h.Sized() && NonIncreasing(h, a + [p]) && AllTight(h, a + [p]) && SetOf(Flatten(a + [p])) <= h.used
    ensures forall k :: 0 <= k < |a| ==> !h.SeqRate(p).Higher(h.SeqRate(a[k])) && h.SeqRate(a[k]).size > 0
  {
    forall k | 0 <= k < |a| ensures !h.SeqRate(p).Higher(h.SeqRate(a[k])) && h.SeqRate(a[k]).size > 0 {
      var r := a + [p];
      assert r[k] == a[k] && r[|a|] == p;
      FlattenMember(r, k);
      SeqRateSize(h, a[k]);
    }
  }

  /** After a pass over a tree-shaped graph, every group is best as a whole. */
  lemma {:induction false} PassTree(h: Graph, l: seq<nat>)
    requires h.Cluster() && Chains(h) && SetOf(l) <= h.used && Topological(h, l) && h.Closed(h.used, SetOf(l))
    ensures AllTree(h, Pass(h, l))
  {
    if l != [] {
      var n := |l| - 1;
      var m, c := l[..n], [l[n]];
      assert l == m + c;
      SetOfConcat(m, c);
      TopologicalPrefix(h, m, c);
      DistinctConcat(m, c);
      assert h.Closed(SetOf(l), SetOf(l[..n]));
      assert h.Closed(h.used, SetOf(m));
      PassTree(h, m);
      PassCorrect(h, m);
      var gs := Pass(h, m);
      assert c[0] in SetOf(c) && SetOf(Flatten(gs)) == SetOf(m);
      hide Graph.Closed, Graph.Valid, Graph.Acyclic, Graph.Sized, Pass, Flatten, AllTight, NonIncreasing, AllTree, Chains, AsGood, AllConnected;
      assert c[0] !in SetOf(Flatten(gs));
      TreeStep(h, gs, c);
    }
  }

  lemma {:induction false} TreeStep(h: Graph, gs: seq<seq<nat>>, c: seq<nat>)
    requires h.Cluster() && Chains(h) && |c| == 1 && c[0] in h.used && SetOf(Flatten(gs)) <= h.used && c[0] !in Flatten(gs)
    requires Distinct(Flatten(gs)) && AllTight(h, gs) && NonIncreasing(h, gs) && AllTree(h, gs)
    requires h.Closed(h.used, SetOf(Flatten(gs)))
    ensures AllTree(h, Settle(h, gs, c))
  {
    var i := c[0];
    assert SetOf(c) == {i};
    SetOfConcat(Flatten(gs), c);
    DistinctConcat(Flatten(gs), c);
    TightSingle(h, c);
    assert Growing(h, gs, c, i) by {
      forall x | h.Closed(SetOf(c), x) && i !in x ensures x == {} && h.SetRate(x) == EMPTY { assert x == {}; }
    }
    forall r | r in Flatten(gs) ensures i !in h.Anc(r) { assert r in SetOf(Flatten(gs)); }
    SettleTree(h, gs, c, i);
  }

  // ---------- such groups give an optimal diagram ----------

  lemma {:induction false} PartExcess(h: Graph, slope: real, c: seq<nat>, x: set<nat>)
    requires h.Sized() && Distinct(c) && SetOf(c) <= h.used && c != [] && BestWhole(h, c) && h.Closed(SetOf(c), x)
    ensures Excess(slope, h.SetRate(x)) <= Max(0.0, Height(h, slope, c))
  {
    SeqRateSet(h, c);
    SeqRateSize(h, c);
    if x == {} {
      assert h.SetRate(x) == EMPTY;
      assert slope * (0 as real) == 0.0;
    } else {
      SetRateSubset(h, x, SetOf(c));
      SetRateSize(h, x);
      ExcessOfPart(slope, h.SetRate(x), h.SeqRate(c));
    }
  }

  lemma {:induction false} ClosedBelowRise(h: Graph, slope: real, gs: seq<seq<nat>>, s: set<nat>)
    requires h.Sized() && Distinct(Flatten(gs)) && SetOf(Flatten(gs)) <= h.used && AllTree(h, gs) && AllTight(h, gs)
    requires h.Closed(h.used, s)
    ensures Excess(slope, h.SetRate(s * SetOf(Flatten(gs)))) <= Rise(h, slope, gs)
  {
    if gs == [] {
      assert s * SetOf(Flatten(gs)) == {};
      assert slope * (0 as real) == 0.0;
    } else {
      var c, rest := gs[0], Flatten(gs[1..]);
      SetOfConcat(c, rest);
      DistinctConcat(c, rest);
      ClosedBelowRise(h, slope, gs[1..], s);
      var x, y := s * SetOf(c), s * SetOf(rest);
      assert h.Closed(SetOf(c), x);
      PartExcess(h, slope, c, x);
      SetRateUnion(h, x, y);
      assert x + y == s * SetOf(Flatten(gs));
      ExcessPlus(slope, h.SetRate(x), h.SetRate(y));
    }
  }

  /** A pass over a linearization of a graph where every transaction has at most one child. */
  lemma {:induction false} PassOptimal(h: Graph, l: seq<nat>)
    requires h.Cluster() && OneChild(h) && h.Linearizes(h.used, l)
    ensures Optimal(h, h.used, Flatten(Pass(h, l)))
  {
    OneChildIffChains(h);
    PassCorrect(h, l);
    PassTree(h, l);
    var gs := Pass(h, l);
    forall slope: real, s: set<nat> | h.Closed(h.used, s)
      ensures Excess(slope, h.SetRate(s)) <= Peak(h, slope, Flatten(gs))
    {
      ClosedBelowRise(h, slope, gs, s);
      assert s * h.used == s;
      PeakOfChunks(h, slope, gs);
    }
  }
}
