/** What PostLinearize guarantees as a whole: a backward pass, then a forward pass
    (src/cluster_linearize.h:1096-1122). */
module PostGuarantees {
  import opened FeeFracs
  import opened Sets
  import opened Graphs
  import opened Diagrams
  import opened Chunkings
  import opened DepGraphs
  import opened PostPasses
  import opened PostTrees

  ghost function Reverse(l: seq<nat>): (r: seq<nat>)
    ensures |r| == |l| && forall i :: 0 <= i < |l| ==> r[i] == l[|l| - 1 - i]
  {
    seq(|l|, i requires 0 <= i < |l| => l[|l| - 1 - i])
  }

  lemma {:induction false} ReverseConcat(a: seq<nat>, b: seq<nat>)
    ensures Reverse(a + b) == Reverse(b) + Reverse(a)
  {
  }

  lemma {:induction false} ReverseTwice(l: seq<nat>)
    ensures Reverse(Reverse(l)) == l
  {
  }

  lemma {:induction false} ReverseSet(l: seq<nat>)
    ensures SetOf(Reverse(l)) == SetOf(l) && (Distinct(l) ==> Distinct(Reverse(l)))
  {
    var r := Reverse(l);
    forall x | x in SetOf(l) ensures x in r {
      var i :| 0 <= i < |l| && l[i] == x;
      assert r[|l| - 1 - i] == x;
    }
    forall x | x in SetOf(r) ensures x in l {
      var i :| 0 <= i < |r| && r[i] == x;
    }
  }

  lemma {:induction false} DualTwice(g: Graph)
    ensures Dual(Dual(g)) == g
  {
    var d := Dual(Dual(g));
    assert d.entries == g.entries;
  }

  // ---------- a diagram and its mirror image ----------

  lemma {:induction false} DualHeight(g: Graph, slope: real, l: seq<nat>)
    ensures Height(Dual(g), -slope, Reverse(l)) == -Height(g, slope, l)
    ensures Dual(g).SeqRate(Reverse(l)) == FeeFrac(-g.SeqRate(l).fee, g.SeqRate(l).size)
  {
    DualSeqRate(g, l);
    NegatedExcess(slope, g.SeqRate(l));
    hide Graph.SeqRate, Reverse, Dual, Excess;
  }

  lemma {:induction false} NegatedExcess(slope: real, f: FeeFrac)
    ensures Excess(-slope, FeeFrac(-f.fee, f.size)) == -Excess(slope, f)
  {
    assert (-slope) * (f.size as real) == -(slope * (f.size as real));
  }

  lemma {:induction false} DualSeqRate(g: Graph, l: seq<nat>)
    ensures Dual(g).SeqRate(Reverse(l)) == FeeFrac(-g.SeqRate(l).fee, g.SeqRate(l).size)
  {
    hide *;
    var d := Dual(g);
    if l == [] {
      NoRate(g, l);
      NoRate(d, Reverse(l));
    } else {
      var x, t := l[..1], l[1..];
      assert l == x + t;
      ReverseConcat(x, t);
      DualSeqRate(g, t);
      SeqRateConcat(d, Reverse(t), Reverse(x));
      SeqRateConcat(g, x, t);
      DualSingleRate(g, x);
      NegatedPlus(g.SeqRate(x), g.SeqRate(t));
    }
  }

  lemma {:induction false} NoRate(g: Graph, l: seq<nat>)
    requires |l| == 0
    ensures g.SeqRate(l) == FeeFrac(0, 0)
  {
  }

  lemma {:induction false} DualSingleRate(g: Graph, x: seq<nat>)
    requires |x| == 1
    ensures Dual(g).SeqRate(Reverse(x)) == FeeFrac(-g.SeqRate(x).fee, g.SeqRate(x).size)
  {
    hide Graph.SeqRate, Dual, Graph.Rate;
    assert Reverse(x)[0] == x[0];
    SeqRateSingle(Dual(g), Reverse(x));
    SeqRateSingle(g, x);
    DualValid(g);
  }

  lemma {:induction false} NegatedPlus(a: FeeFrac, b: FeeFrac)
    ensures FeeFrac(-b.fee, b.size).Plus(FeeFrac(-a.fee, a.size)) == FeeFrac(-a.Plus(b).fee, a.Plus(b).size)
  {
  }

  lemma {:induction false} DualPeak(g: Graph, slope: real, l: seq<nat>)
    ensures Peak(Dual(g), -slope, Reverse(l)) == Peak(g, slope, l) - Height(g, slope, l)
  {
    hide *;
    var d := Dual(g);
    if l == [] {
      NoPeak(g, slope, l);
      NoPeak(d, -slope, Reverse(l));
    } else {
      var x, t := l[..1], l[1..];
      assert l == x + t;
      ReverseConcat(x, t);
      DualPeak(g, slope, t);
      DualHeight(g, slope, t);
      DualHeight(g, slope, x);
      PeakConcat(d, -slope, Reverse(t), Reverse(x));
      PeakConcat(g, slope, x, t);
      HeightConcat(g, slope, x, t);
      PeakSingle(d, -slope, Reverse(x));
      PeakSingle(g, slope, x);
      Mirror(Peak(g, slope, t), Height(g, slope, t), Height(g, slope, x));
    }
  }

  lemma {:induction false} Mirror(a: real, t: real, x: real)
    requires a >= 0.0
    ensures Max(a - t, -t + Max(0.0, -x)) == Max(Max(0.0, x), x + a) - (x + t)
  {
  }

  lemma {:induction false} NoPeak(g: Graph, slope: real, l: seq<nat>)
    requires |l| == 0
    ensures Peak(g, slope, l) == 0.0 && Height(g, slope, l) == 0.0
  {
    assert slope * (0 as real) == 0.0;
  }

  lemma {:induction false} PeakSingle(g: Graph, slope: real, c: seq<nat>)
    requires |c| == 1
    ensures Peak(g, slope, c) == Max(0.0, Height(g, slope, c))
  {
    hide Graph.SeqRate, Excess;
    SeqRateSingle(g, c);
    var rest := c[1..];
    assert rest == [];
    assert Peak(g, slope, rest) == 0.0;
  }

  /** Being at least as good is the same for the mirror images. */
  lemma {:induction false} DualAsGood(g: Graph, a: seq<nat>, b: seq<nat>)
    requires g.SeqRate(a) == g.SeqRate(b) && AsGood(Dual(g), Reverse(a), Reverse(b))
    ensures AsGood(g, a, b)
  {
    forall slope: real ensures Peak(g, slope, b) <= Peak(g, slope, a) {
      DualPeak(g, slope, a);
      DualPeak(g, slope, b);
      assert Peak(Dual(g), -slope, Reverse(b)) <= Peak(Dual(g), -slope, Reverse(a));
    }
  }

  lemma {:induction false} ComplementClosed(g: Graph, s: set<nat>)
    requires g.Valid() && g.Closed(g.used, s)
    ensures Dual(g).Closed(g.used, g.used - s)
  {
    DualValid(g);
    var d := Dual(g);
    forall i, a | i in g.used - s && a in d.Anc(i) * g.used ensures a in g.used - s {
      assert i in g.Anc(a);
    }
  }

  lemma {:induction false} DualLinearizes(g: Graph, l: seq<nat>)
    requires g.Valid() && g.Linearizes(g.used, l)
    ensures Dual(g).Linearizes(g.used, Reverse(l))
  {
    ReverseSet(l);
    var r, n := Reverse(l), |l|;
    forall k | 0 <= k <= n ensures Dual(g).Closed(g.used, SetOf(r[..k])) {
      var a, b := l[..n - k], l[n - k..];
      assert l == a + b;
      ReverseConcat(a, b);
      assert r[..k] == Reverse(b);
      ReverseSet(b);
      SetOfConcat(a, b);
      DistinctConcat(a, b);
      assert SetOf(b) == g.used - SetOf(a);
      ComplementClosed(g, SetOf(a));
    }
  }

  lemma {:induction false} DualRate(g: Graph, s: set<nat>)
    ensures Dual(g).SetRate(s) == FeeFrac(-g.SetRate(s).fee, g.SetRate(s).size)
    decreases |s|
  {
    DualValid(g);
    if s != {} { DualRate(g, s - {First(s)}); }
  }

  /** An optimal mirror image comes from an optimal list. */
  lemma {:induction false} DualOptimal(g: Graph, l: seq<nat>)
    requires g.Valid() && g.Linearizes(g.used, l) && Optimal(Dual(g), g.used, Reverse(l))
    ensures Optimal(g, g.used, l)
  {
    forall slope: real, s: set<nat> | g.Closed(g.used, s) ensures Excess(slope, g.SetRate(s)) <= Peak(g, slope, l) {
      DualBound(g, l, slope, s);
    }
  }

  lemma {:induction false} DualBound(g: Graph, l: seq<nat>, slope: real, s: set<nat>)
    requires g.Valid() && g.Linearizes(g.used, l) && Optimal(Dual(g), g.used, Reverse(l)) && g.Closed(g.used, s)
    ensures Excess(slope, g.SetRate(s)) <= Peak(g, slope, l)
  {
    hide *;
    var rest := g.used - s;
    ComplementBound(g, l, slope, s);
    DualPeak(g, slope, l);
    DualRate(g, rest);
    SetRateSplit(g, g.used, s);
    ExcessPlus(slope, g.SetRate(s), g.SetRate(rest));
    NegatedExcess(slope, g.SetRate(rest));
  }

  lemma {:induction false} ComplementBound(g: Graph, l: seq<nat>, slope: real, s: set<nat>)
    requires g.Valid() && g.Linearizes(g.used, l) && Optimal(Dual(g), g.used, Reverse(l)) && g.Closed(g.used, s)
    ensures Excess(-slope, Dual(g).SetRate(g.used - s)) <= Peak(Dual(g), -slope, Reverse(l))
    ensures Height(g, slope, l) == Excess(slope, g.SetRate(g.used)) && g.used * s == s
  {
    hide Peak, Graph.SetRate, Graph.SeqRate, Reverse, Dual, Excess, Graph.Valid;
    ComplementClosed(g, s);
    SeqRateSet(g, l);
  }

  // ---------- the two passes ----------

  ghost function Backward(g: Graph, l: seq<nat>): seq<nat> { Reverse(Flatten(Pass(Dual(g), Reverse(l)))) }

  ghost function Post(g: Graph, l: seq<nat>): seq<nat> { Flatten(Pass(g, Backward(g, l))) }

  lemma {:induction false} BackwardCorrect(g: Graph, l: seq<nat>)
    requires g.Cluster() && g.Linearizes(g.used, l)
    ensures g.Linearizes(g.used, Backward(g, l)) && AsGood(g, Backward(g, l), l)
    ensures g.SeqRate(Backward(g, l)) == g.SeqRate(l)
  {
    var d := Dual(g);
    DualValid(g);
    DualLinearizes(g, l);
    ReverseSet(l);
    PassCorrect(d, Reverse(l));
    var f := Flatten(Pass(d, Reverse(l)));
    assert d.Linearizes(g.used, f);
    DualLinearizes(d, f);
    DualTwice(g);
    ReverseTwice(f);
    DualSeqRate(g, Backward(g, l));
    DualSeqRate(g, l);
    DualAsGood(g, Backward(g, l), l);
  }

  /** Postlinearizing gives a linearization that is at least as good, whose chunks are the groups
      of the last pass, each of them connected. */
  lemma {:induction false} PostCorrect(g: Graph, l: seq<nat>)
    requires g.Cluster() && g.Linearizes(g.used, l)
    ensures g.Linearizes(g.used, Post(g, l)) && AsGood(g, Post(g, l), l)
    ensures Chunks(g, Post(g, l)) == Pass(g, Backward(g, l)) && AllConnected(g, Chunks(g, Post(g, l)))
  {
    BackwardCorrect(g, l);
    var b := Backward(g, l);
    PassCorrect(g, b);
    AsGoodTrans(g, Post(g, l), b, l);
    ChunksAreChunking(g, Post(g, l));
    ChunkingUnique(g, Post(g, l), Chunks(g, Post(g, l)), Pass(g, b));
  }

  /** Every transaction has at most one direct parent. */
  ghost predicate OneParent(g: Graph) {
    forall x :: x in g.used ==> |Parents(g, x)| <= 1
  }

  /** On a forest, in either direction, no linearization beats the result. */
  lemma {:induction false} PostOptimalOnTrees(g: Graph, l: seq<nat>)
    requires g.Cluster() && g.Linearizes(g.used, l) && (OneChild(g) || OneParent(g))
    ensures Optimal(g, g.used, Post(g, l))
  {
    BackwardCorrect(g, l);
    var b := Backward(g, l);
    if OneChild(g) {
      PassOptimal(g, b);
    } else {
      BackwardOptimal(g, l);
      PassCorrect(g, b);
      forall slope: real, s: set<nat> | g.Closed(g.used, s) ensures Excess(slope, g.SetRate(s)) <= Peak(g, slope, Post(g, l)) {
        assert Excess(slope, g.SetRate(s)) <= Peak(g, slope, b) <= Peak(g, slope, Post(g, l));
      }
    }
  }

  lemma {:induction false} BackwardOptimal(g: Graph, l: seq<nat>)
    requires g.Cluster() && g.Linearizes(g.used, l) && OneParent(g)
    ensures Optimal(g, g.used, Backward(g, l))
  {
    var d := Dual(g);
    DualValid(g);
    DualTwice(g);
    DualLinearizes(g, l);
    assert OneChild(d);
    PassOptimal(d, Reverse(l));
    BackwardCorrect(g, l);
    ReverseTwice(Flatten(Pass(d, Reverse(l))));
    DualOptimal(g, Backward(g, l));
  }

  // ---------- moving a leaf to the end ----------

  /** Going on after a prefix is at least as good as leaving the groups of the prefix alone. */
  lemma {:induction false} PassExtends(h: Graph, a: seq<nat>, b: seq<nat>)
    requires h.Valid() && h.Sized() && SetOf(a + b) <= h.used && Topological(h, a + b)
    ensures AsGood(h, Flatten(Pass(h, a + b)), Flatten(Pass(h, a)) + b)
  {
    hide *;
    var fa := Flatten(Pass(h, a));
    if b == [] {
      assert a + b == a && fa + b == fa;
      AsGoodSelf(h, fa);
    } else {
      var n := |b| - 1;
      var m, c := b[..n], [b[n]];
      var l := a + m;
      assert b == m + c && a + b == l + c;
      SetOfConcat(l, c);
      TopologicalPrefix(h, l, c);
      PassExtends(h, a, m);
      PassGrows(h, l, c);
      PassRates(h, a, m);
      var fl := Flatten(Pass(h, l));
      AsGoodContext(h, [], fl, fa + m, c);
      assert [] + fl + c == fl + c && [] + (fa + m) + c == fa + b;
      AsGoodTrans(h, Flatten(Pass(h, a + b)), fl + c, fa + b);
    }
  }

  lemma {:induction false} PassRates(h: Graph, a: seq<nat>, m: seq<nat>)
    requires h.Valid() && h.Sized() && SetOf(a + m) <= h.used && Topological(h, a + m)
    ensures h.SeqRate(Flatten(Pass(h, a + m))) == h.SeqRate(Flatten(Pass(h, a)) + m)
  {
    hide *;
    TopologicalPrefix(h, a, m);
    SetOfConcat(a, m);
    PassKeepsRate(h, a);
    PassKeepsRate(h, a + m);
    SeqRateConcat(h, a, m);
    SeqRateConcat(h, Flatten(Pass(h, a)), m);
  }

  lemma {:induction false} PassKeepsRate(h: Graph, l: seq<nat>)
    requires h.Valid() && h.Sized() && SetOf(l) <= h.used && Topological(h, l)
    ensures h.SeqRate(Flatten(Pass(h, l))) == h.SeqRate(l)
  {
    hide Graph.Valid, Graph.Sized, Topological, AsGood, AllConnected, IsChunking, Flatten, Pass, Graph.SeqRate;
    PassCorrect(h, l);
  }

  lemma {:induction false} PassGrows(h: Graph, l: seq<nat>, c: seq<nat>)
    requires h.Valid() && h.Sized() && SetOf(l + c) <= h.used && Topological(h, l + c) && |c| == 1
    ensures AsGood(h, Flatten(Pass(h, l + c)), Flatten(Pass(h, l)) + c)
  {
    hide Graph.Valid, Graph.Sized, Topological, AsGood, AllConnected, IsChunking, Flatten, Graph.SeqRate, Settle;
    SetOfConcat(l, c);
    TopologicalPrefix(h, l, c);
    PassCorrect(h, l);
    PassStep(h, l, Pass(h, l), c);
    assert (l + c)[..|l|] == l && [(l + c)[|l|]] == c;
  }

  ghost function Drop(gs: seq<seq<nat>>, k: nat): seq<seq<nat>>
    requires k < |gs|
  {
    gs[..k] + gs[k + 1..]
  }

  /** Group k of `front` is t alone, and nothing listed depends on t. */
  ghost predicate AsideState(h: Graph, front: seq<seq<nat>>, c: seq<nat>, t: nat, k: nat) {
    && SetOf(Flatten(front) + c) <= h.used && AllTight(h, front) && Tight(h, c)
    && Topological(h, Flatten(front) + c) && k < |front| && front[k] == [t] && t !in c
    && forall x :: x in Flatten(front) + c && x != t ==> t !in h.Anc(x)
  }

  /** Settling c did not touch t, and the other groups are at least as good as before. */
  ghost predicate AsideResult(h: Graph, front: seq<seq<nat>>, c: seq<nat>, t: nat, k: nat, r: seq<seq<nat>>, j: nat) {
    && k < |front| && j < |r| && r[j] == [t]
    && AsGood(h, Flatten(Drop(r, j)), Flatten(Drop(front, k)) + c)
    && h.SeqRate(Flatten(Drop(r, j))) == h.SeqRate(Flatten(Drop(front, k)) + c)
  }

  lemma {:induction false} AsideLast(h: Graph, a: seq<seq<nat>>, p: seq<nat>, c: seq<nat>, t: nat)
    requires h.Sized() && AsideState(h, a + [p], c, t, |a|)
    ensures !DependsOn(h, c, p)
    ensures AsideResult(h, a + [p], c, t, |a|, Settle(h, a, c) + [p], |Settle(h, a, c)|)
  {
    assert (a + [p])[|a|] == p;
    FlattenSnoc(a, p);
    SetOfThree(Flatten(a), p, c);
    forall x | x in c ensures t !in h.Anc(x) { assert x in Flatten(a + [p]) + c; }
    assert SetOf(p) == {t};
    assert t !in AncestorsOf(h, SetOf(c));
    TopologicalSwap(h, Flatten(a), p, c);
    TopologicalPrefix(h, Flatten(a) + c, p);
    TightFront(h, a, p);
    SettleAsGood(h, a, c);
    SettleTopological(h, a, c);
    var r := Settle(h, a, c);
    assert Drop(r + [p], |r|) == r && Drop(a + [p], |a|) == a;
  }

  lemma {:induction false} TightFront(h: Graph, a: seq<seq<nat>>, p: seq<nat>)
    requires AllTight(h, a + [p])
    ensures AllTight(h, a) && Tight(h, p)
  {
    assert (a + [p])[|a|] == p;
    assert forall k :: 0 <= k < |a| ==> (a + [p])[k] == a[k];
  }

  /** The state after c absorbed, or passed, the group before it. */
  lemma {:induction false} AsideNext(h: Graph, a: seq<seq<nat>>, p: seq<nat>, c: seq<nat>, t: nat, k: nat)
    requires h.Sized() && AsideState(h, a + [p], c, t, k) && k < |a| && h.SeqRate(c).Higher(h.SeqRate(p))
    ensures AsideState(h, a, p + c, t, k)
    ensures !DependsOn(h, c, p) ==> AsideState(h, a, c, t, k)
    ensures Tight(h, p) && Tight(h, c) && SetOf(p) <= h.used && SetOf(c) <= h.used
  {
    var front := a + [p];
    assert front[|a|] == p && front[k] == a[k];
    FlattenSnoc(a, p);
    SetOfThree(Flatten(a), p, c);
    assert Flatten(front) + c == Flatten(a) + (p + c);
    TightFront(h, a, p);
    TightMerge(h, p, c);
    assert t !in p by {
      FlattenMember(a, k);
      assert t in SetOf(Flatten(a));
      DistinctConcat(Flatten(a), p + c);
      SetOfConcat(p, c);
    }
    if !DependsOn(h, c, p) {
      TopologicalSwap(h, Flatten(a), p, c);
      TopologicalPrefix(h, Flatten(a) + c, p);
    }
  }

  lemma {:induction false} AsideMerged(h: Graph, a: seq<seq<nat>>, p: seq<nat>, c: seq<nat>, t: nat, k: nat, r: seq<seq<nat>>, j: nat)
    requires k < |a| && AsideResult(h, a, p + c, t, k, r, j)
    ensures AsideResult(h, a + [p], c, t, k, r, j)
  {
    hide Graph.SeqRate, AsGood, Flatten;
    assert Drop(a + [p], k) == Drop(a, k) + [p];
    FlattenSnoc(Drop(a, k), p);
    assert Flatten(Drop(a + [p], k)) + c == Flatten(Drop(a, k)) + (p + c);
  }

  lemma {:induction false} AsideSwapped(h: Graph, a: seq<seq<nat>>, p: seq<nat>, c: seq<nat>, t: nat, k: nat, r: seq<seq<nat>>, j: nat)
    requires h.Sized() && k < |a| && AsideResult(h, a, c, t, k, r, j) && h.SeqRate(c).Higher(h.SeqRate(p))
    requires Tight(h, p) && Tight(h, c) && SetOf(p) <= h.used && SetOf(c) <= h.used
    ensures AsideResult(h, a + [p], c, t, k, r + [p], j)
  {
    assert Drop(a + [p], k) == Drop(a, k) + [p];
    assert Drop(r + [p], j) == Drop(r, j) + [p];
    hide Graph.SeqRate, AsGood, Flatten, Tight, Graph.Sized, FeeFrac.Higher;
    FlattenSnoc(Drop(a, k), p);
    FlattenSnoc(Drop(r, j), p);
    var fa, x := Flatten(Drop(a, k)), Flatten(Drop(r, j));
    SwapThenSettle(h, fa, p, c, x);
    SeqRateConcat(h, x, p);
    SeqRateConcat(h, fa, c);
    SeqRateConcat(h, fa + p, c);
    SeqRateConcat(h, fa, p);
  }

  /** While nothing depends on t, settling ignores it. */
  lemma {:induction false} SettleAside(h: Graph, front: seq<seq<nat>>, c: seq<nat>, t: nat, k: nat) returns (j: nat)
    requires h.Sized() && AsideState(h, front, c, t, k)
    ensures AsideResult(h, front, c, t, k, Settle(h, front, c), j)
  {
    if front == [] || !h.SeqRate(c).Higher(h.SeqRate(front[|front| - 1])) {
      j := k;
      AsideStop(h, front, c, t, k);
    } else {
      var n := |front| - 1;
      var a, p := front[..n], front[n];
      assert front == a + [p];
      hide AsideState, AsideResult, DependsOn, FeeFrac.Higher, Graph.SeqRate;
      if k == n {
        AsideLast(h, a, p, c, t);
        j := |Settle(h, a, c)|;
      } else {
        AsideIndex(h, front, c, t, k);
        AsideNext(h, a, p, c, t, k);
        if DependsOn(h, c, p) {
          j := SettleAside(h, a, p + c, t, k);
          AsideMerged(h, a, p, c, t, k, Settle(h, a, p + c), j);
        } else {
          j := SettleAside(h, a, c, t, k);
          AsideSwapped(h, a, p, c, t, k, Settle(h, a, c), j);
        }
      }
    }
  }

  lemma {:induction false} AsideIndex(h: Graph, front: seq<seq<nat>>, c: seq<nat>, t: nat, k: nat)
    requires AsideState(h, front, c, t, k)
    ensures k < |front|
  {
  }

  lemma {:induction false} AsideStop(h: Graph, front: seq<seq<nat>>, c: seq<nat>, t: nat, k: nat)
    requires AsideState(h, front, c, t, k)
    ensures AsideResult(h, front, c, t, k, front + [c], k)
  {
    assert Drop(front + [c], k) == Drop(front, k) + [c];
    FlattenSnoc(Drop(front, k), c);
  }

  /** Processing t first and then m, in which nothing depends on t, sets t aside. */
  lemma {:induction false} PassAside(h: Graph, t: nat, m: seq<nat>) returns (k: nat)
    requires h.Valid() && h.Sized() && SetOf([t] + m) <= h.used && Topological(h, [t] + m)
    requires forall x :: x in m ==> t !in h.Anc(x)
    ensures var gs := Pass(h, [t] + m);
            k < |gs| && gs[k] == [t] && AsGood(h, Flatten(Drop(gs, k)), m) && h.SeqRate(Flatten(Drop(gs, k))) == h.SeqRate(m)
  {
    if m == [] {
      k := 0;
      var l := [t] + m;
      assert l[..0] == [] && Pass(h, l) == Settle(h, [], [t]) == [[t]];
      assert Drop([[t]], 0) == [];
    } else {
      var n := |m| - 1;
      var u, c := m[..n], [m[n]];
      assert m == u + c;
      var l := [t] + u;
      assert [t] + m == l + c;
      SetOfConcat(l, c);
      TopologicalPrefix(h, l, c);
      var i := PassAside(h, t, u);
      PassCorrect(h, l);
      AsideStart(h, l, c, t, u, i);
      k := SettleAside(h, Pass(h, l), c, t, i);
      assert (l + c)[..|l|] == l && (l + c)[|l|] == c[0];
      AsideDone(h, Pass(h, l), c, t, i, Settle(h, Pass(h, l), c), k, u);
    }
  }

  lemma {:induction false} AsideStart(h: Graph, l: seq<nat>, c: seq<nat>, t: nat, u: seq<nat>, i: nat)
    requires h.Valid() && h.Sized() && |c| == 1 && l == [t] + u && SetOf(l + c) <= h.used && Topological(h, l + c)
    requires PassResult(h, l, Pass(h, l)) && i < |Pass(h, l)| && Pass(h, l)[i] == [t]
    requires forall x :: x in u + c ==> t !in h.Anc(x)
    ensures AsideState(h, Pass(h, l), c, t, i)
  {
    var f := Flatten(Pass(h, l));
    TopologicalReplace(h, l, f, c);
    SetOfConcat(l, c);
    SetOfConcat(f, c);
    SetOfConcat([t], u);
    TightSingle(h, c);
    DistinctConcat(l, c);
    assert t in SetOf(l);
    assert c[0] in SetOf(c);
    forall x | x in f + c && x != t ensures t !in h.Anc(x) {
      assert x in SetOf(f + c);
      assert x in u + c;
    }
  }

  lemma {:induction false} AsideDone(h: Graph, front: seq<seq<nat>>, c: seq<nat>, t: nat, i: nat, r: seq<seq<nat>>, k: nat, u: seq<nat>)
    requires AsideResult(h, front, c, t, i, r, k)
    requires AsGood(h, Flatten(Drop(front, i)), u) && h.SeqRate(Flatten(Drop(front, i))) == h.SeqRate(u)
    ensures AsGood(h, Flatten(Drop(r, k)), u + c) && h.SeqRate(Flatten(Drop(r, k))) == h.SeqRate(u + c)
  {
    hide Graph.SeqRate, AsGood, Flatten, Drop;
    var f := Flatten(Drop(front, i));
    AsGoodContext(h, [], f, u, c);
    assert [] + f + c == f + c && [] + u + c == u + c;
    AsGoodTrans(h, Flatten(Drop(r, k)), f + c, u + c);
    SeqRateConcat(h, f, c);
    SeqRateConcat(h, u, c);
  }

  /** With t set aside in its place by feerate, the groups are at least as good as m then t. */
  lemma {:induction false} AsideAsGood(h: Graph, gs: seq<seq<nat>>, t: nat, m: seq<nat>, k: nat)
    requires h.Sized() && SetOf(Flatten(gs)) <= h.used && AllTight(h, gs) && NonIncreasing(h, gs)
    requires k < |gs| && gs[k] == [t] && AsGood(h, Flatten(Drop(gs, k)), m)
    ensures AsGood(h, Flatten(gs), m + [t])
  {
    var w := Drop(gs, k);
    DropChunks(h, gs, k);
    forall slope: real ensures Peak(h, slope, m + [t]) <= Peak(h, slope, Flatten(gs)) {
      PeakOfChunks(h, slope, gs);
      PeakOfChunks(h, slope, w);
      RiseDrop(h, slope, gs, k);
      PeakConcat(h, slope, m, [t]);
      PeakSingle(h, slope, [t]);
      PeakBound(h, slope, m, |m|);
      assert m[..|m|] == m;
    }
  }

  lemma {:induction false} DropChunks(h: Graph, gs: seq<seq<nat>>, k: nat)
    requires k < |gs| && AllTight(h, gs) && NonIncreasing(h, gs) && SetOf(Flatten(gs)) <= h.used
    ensures AllTight(h, Drop(gs, k)) && NonIncreasing(h, Drop(gs, k)) && SetOf(Flatten(Drop(gs, k))) <= h.used
  {
    var w := Drop(gs, k);
    forall i | 0 <= i < |w| ensures w[i] == gs[if i < k then i else i + 1] {}
    FlattenMember(gs, k);
    FlattenConcat(gs[..k], gs[k + 1..]);
    SetOfThree(Flatten(gs[..k]), gs[k], Flatten(gs[k + 1..]));
  }

  lemma {:induction false} RiseDrop(h: Graph, slope: real, gs: seq<seq<nat>>, k: nat)
    requires k < |gs|
    ensures Rise(h, slope, gs) == Rise(h, slope, Drop(gs, k)) + Max(0.0, Height(h, slope, gs[k]))
  {
    var a, b := gs[..k], gs[k + 1..];
    assert gs == a + ([gs[k]] + b);
    RiseConcat(h, slope, a, [gs[k]] + b);
    RiseConcat(h, slope, a, b);
    assert ([gs[k]] + b)[1..] == b;
  }

  lemma {:induction false} PassFacts(h: Graph, l: seq<nat>)
    requires PassResult(h, l, Pass(h, l)) && SetOf(l) <= h.used
    ensures AllTight(h, Pass(h, l)) && NonIncreasing(h, Pass(h, l)) && SetOf(Flatten(Pass(h, l))) <= h.used
    ensures h.SeqRate(Flatten(Pass(h, l))) == h.SeqRate(l)
  {
  }

  lemma PlusCommutes(a: FeeFrac, b: FeeFrac)
    ensures a.Plus(b) == b.Plus(a)
  {
  }

  /** A pass that starts with t makes up for t's having been moved to the start. */
  lemma {:induction false} PassMoved(h: Graph, t: nat, m1: seq<nat>, m2: seq<nat>)
    requires h.Valid() && h.Sized() && SetOf([t] + m1 + m2) <= h.used
    requires Topological(h, [t] + m1 + m2) && forall x :: x in m1 ==> t !in h.Anc(x)
    ensures AsGood(h, Flatten(Pass(h, [t] + m1 + m2)), m1 + [t] + m2)
  {
    hide *;
    var l := [t] + m1;
    SetOfConcat(l, m2);
    TopologicalPrefix(h, l, m2);
    PassExtends(h, l, m2);
    PassCorrect(h, l);
    PassFacts(h, l);
    var k := PassAside(h, t, m1);
    var f := Flatten(Pass(h, l));
    PlusCommutes(h.SeqRate([t]), h.SeqRate(m1));
    AsideAsGood(h, Pass(h, l), t, m1, k);
    SeqRateConcat(h, [t], m1);
    SeqRateConcat(h, m1, [t]);
    AsGoodContext(h, [], f, m1 + [t], m2);
    assert [] + f + m2 == f + m2 && [] + (m1 + [t]) + m2 == m1 + [t] + m2;
    AsGoodTrans(h, Flatten(Pass(h, l + m2)), f + m2, m1 + [t] + m2);
  }

  /** Moving a leaf to the end and postlinearizing is at least as good as not moving it. */
  lemma {:induction false} MovedLeaf(g: Graph, x: seq<nat>, leaf: nat, y: seq<nat>)
    requires g.Cluster() && g.Linearizes(g.used, x + [leaf] + y) && g.Linearizes(g.used, x + y + [leaf])
    ensures AsGood(g, Post(g, x + y + [leaf]), x + [leaf] + y)
  {
    var d := Dual(g);
    var moved, l := x + y + [leaf], x + [leaf] + y;
    DualValid(g);
    DualLinearizes(g, moved);
    ReverseConcat(x + y, [leaf]);
    ReverseConcat(x, y);
    ReverseConcat(x + [leaf], y);
    ReverseConcat(x, [leaf]);
    var m1, m2 := Reverse(y), Reverse(x);
    assert Reverse([leaf]) == [leaf];
    assert Reverse(moved) == [leaf] + m1 + m2 && Reverse(l) == m1 + [leaf] + m2;
    ReverseSet(moved);
    forall z | z in m1 ensures leaf !in d.Anc(z) { LaterNotAncestor(g, x, leaf, y, z); }
    PassMoved(d, leaf, m1, m2);
    ReverseTwice(Flatten(Pass(d, Reverse(moved))));
    BackwardCorrect(g, moved);
    MovedRate(g, x, leaf, y);
    DualAsGood(g, Backward(g, moved), l);
    PassCorrect(g, Backward(g, moved));
    AsGoodTrans(g, Post(g, moved), Backward(g, moved), l);
  }

  lemma {:induction false} LaterNotAncestor(g: Graph, x: seq<nat>, leaf: nat, y: seq<nat>, z: nat)
    requires g.Valid() && g.Linearizes(g.used, x + [leaf] + y) && z in Reverse(y)
    ensures leaf !in Dual(g).Anc(z)
  {
    DualValid(g);
    ReverseSet(y);
    assert z in SetOf(Reverse(y));
    var l := x + [leaf];
    assert (l + y)[..|l|] == l;
    assert g.Closed(g.used, SetOf((l + y)[..|l|]));
    DistinctConcat(l, y);
    SetOfConcat(l, y);
    assert leaf in SetOf(l);
  }

  lemma {:induction false} MovedRate(g: Graph, x: seq<nat>, leaf: nat, y: seq<nat>)
    ensures g.SeqRate(x + y + [leaf]) == g.SeqRate(x + [leaf] + y)
  {
    hide Graph.SeqRate;
    SeqRateConcat(g, x + y, [leaf]);
    SeqRateConcat(g, x, y);
    SeqRateConcat(g, x + [leaf], y);
    SeqRateConcat(g, x, [leaf]);
  }

  // ---------- ... also when its fee goes up ----------

  /** Graph h is g with the fee of one transaction raised. */
  ghost predicate FeeRaised(g: Graph, leaf: nat, h: Graph) {
    && h.used == g.used && |h.entries| == |g.entries|
    && (forall i: nat :: h.Anc(i) == g.Anc(i) && h.Desc(i) == g.Desc(i))
    && (forall i: nat :: i != leaf ==> h.Rate(i) == g.Rate(i))
    && h.Rate(leaf).size == g.Rate(leaf).size && h.Rate(leaf).fee >= g.Rate(leaf).fee
  }

  lemma {:induction false} FeeOnly(slope: real, fee: nat)
    ensures Excess(slope, FeeFrac(fee, 0)) >= 0.0
  {
    assert slope * (0 as real) == 0.0;
  }

  lemma {:induction false} RaisedExcess(slope: real, a: FeeFrac, b: FeeFrac)
    requires a.size == b.size && a.fee <= b.fee
    ensures Excess(slope, a) <= Excess(slope, b)
  {
    hide Excess;
    var more := FeeFrac(b.fee - a.fee, 0);
    assert b == a.Plus(more);
    ExcessPlus(slope, a, more);
    FeeOnly(slope, b.fee - a.fee);
  }

  lemma {:induction false} RaisedPeak(g: Graph, leaf: nat, h: Graph, slope: real, l: seq<nat>)
    requires FeeRaised(g, leaf, h)
    ensures Peak(g, slope, l) <= Peak(h, slope, l)
  {
    hide Excess;
    if l != [] {
      RaisedPeak(g, leaf, h, slope, l[1..]);
      RaisedExcess(slope, g.Rate(l[0]), h.Rate(l[0]));
    }
  }

  /** Replacing a leaf by one of the same size and a higher fee, appended at the end, and
      postlinearizing never gives a worse diagram than the linearization with the old leaf. */
  lemma {:induction false} ReplacedLeaf(g: Graph, x: seq<nat>, leaf: nat, y: seq<nat>, h: Graph)
    requires g.Cluster() && g.Linearizes(g.used, x + [leaf] + y) && g.Linearizes(g.used, x + y + [leaf])
    requires FeeRaised(g, leaf, h)
    ensures forall slope: real :: Peak(g, slope, x + [leaf] + y) <= Peak(h, slope, Post(h, x + y + [leaf]))
  {
    RaisedCluster(g, leaf, h);
    RaisedLinearizes(g, leaf, h, x + [leaf] + y);
    RaisedLinearizes(g, leaf, h, x + y + [leaf]);
    MovedLeaf(h, x, leaf, y);
    forall slope: real ensures Peak(g, slope, x + [leaf] + y) <= Peak(h, slope, Post(h, x + y + [leaf])) {
      RaisedPeak(g, leaf, h, slope, x + [leaf] + y);
      assert Peak(h, slope, x + [leaf] + y) <= Peak(h, slope, Post(h, x + y + [leaf]));
    }
  }

  lemma {:induction false} RaisedCluster(g: Graph, leaf: nat, h: Graph)
    requires g.Cluster() && FeeRaised(g, leaf, h)
    ensures h.Cluster()
  {
    forall i | i in h.used ensures h.Rate(i).size > 0 { assert g.Rate(i).size > 0; }
  }

  lemma {:induction false} RaisedLinearizes(g: Graph, leaf: nat, h: Graph, l: seq<nat>)
    requires g.Linearizes(g.used, l) && FeeRaised(g, leaf, h)
    ensures h.Linearizes(h.used, l)
  {
    forall k | 0 <= k <= |l| ensures h.Closed(h.used, SetOf(l[..k])) {
      assert g.Closed(g.used, SetOf(l[..k]));
    }
  }
}
