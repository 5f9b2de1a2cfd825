/** What one pass of PostLinearize computes and guarantees (src/cluster_linearize.h:1113-1142),
    stated for lists of groups; PostLinearization refines it to linked entries. */
module PostPasses {
  import opened FeeFracs
  import opened Sets
  import opened Graphs
  import opened Diagrams
  import opened DepGraphs
  import opened Improvements
  import Chunkings

  /** Some transaction of c has an ancestor in p. */
  ghost predicate DependsOn(h: Graph, c: seq<nat>, p: seq<nat>) {
    AncestorsOf(h, SetOf(c)) * SetOf(p) != {}
  }

  /** Let group c move towards the front, past the lower-feerate groups it does not depend on and
      absorbing those it does. */
  ghost function Settle(h: Graph, front: seq<seq<nat>>, c: seq<nat>): seq<seq<nat>> {
    if front == [] || !h.SeqRate(c).Higher(h.SeqRate(front[|front| - 1])) then front + [c]
    else
      var n := |front| - 1;
      if DependsOn(h, c, front[n]) then Settle(h, front[..n], front[n] + c)
      else Settle(h, front[..n], c) + [front[n]]
  }

  /** The groups after processing list l from front to back. */
  ghost function Pass(h: Graph, l: seq<nat>): seq<seq<nat>> {
    if l == [] then [] else Settle(h, Pass(h, l[..|l| - 1]), [l[|l| - 1]])
  }

  // ---------- chunks ----------

  lemma {:induction false} SettleTight(h: Graph, front: seq<seq<nat>>, c: seq<nat>)
    requires h.Sized() && SetOf(Flatten(front) + c) <= h.used && AllTight(h, front) && Tight(h, c)
    ensures AllTight(h, Settle(h, front, c))
    ensures SetOf(Flatten(Settle(h, front, c))) == SetOf(Flatten(front) + c)
    ensures Settle(h, front, c) != []
  {
    if front == [] || !h.SeqRate(c).Higher(h.SeqRate(front[|front| - 1])) {
      FlattenSnoc(front, c);
    } else {
      var n := |front| - 1;
      var a, p := front[..n], front[n];
      assert front == a + [p];
      FlattenSnoc(a, p);
      SetOfThree(Flatten(a), p, c);
      if DependsOn(h, c, p) {
        assert Flatten(front) + c == Flatten(a) + (p + c);
        assert SetOf(p + c) <= h.used;
        TightMerge(h, p, c);
        SettleTight(h, a, p + c);
      } else {
        SettleTight(h, a, c);
        FlattenSnoc(Settle(h, a, c), p);
        SetOfConcat(Flatten(Settle(h, a, c)), p);
      }
    }
  }

  lemma {:induction false} SetOfThree(a: seq<nat>, p: seq<nat>, c: seq<nat>)
    ensures SetOf(a + p + c) == SetOf(a) + SetOf(p) + SetOf(c)
    ensures SetOf(p + c) == SetOf(p) + SetOf(c) && SetOf(a + c) == SetOf(a) + SetOf(c)
  {
    SetOfConcat(a + p, c);
    SetOfConcat(a, p);
    SetOfConcat(p, c);
    SetOfConcat(a, c);
  }

  ghost predicate NoneLower(h: Graph, gs: seq<seq<nat>>, f: FeeFrac) {
    forall i :: 0 <= i < |gs| ==> !h.SeqRate(gs[i]).Lower(f)
  }

  lemma {:induction false} SettleBound(h: Graph, front: seq<seq<nat>>, c: seq<nat>, f: FeeFrac)
    requires NoneLower(h, front, f) && !h.SeqRate(c).Lower(f)
    ensures NoneLower(h, Settle(h, front, c), f)
  {
    if front == [] || !h.SeqRate(c).Higher(h.SeqRate(front[|front| - 1])) {
    } else {
      var n := |front| - 1;
      if DependsOn(h, c, front[n]) {
        SeqRateConcat(h, front[n], c);
        PlusLower(h.SeqRate(front[n]), h.SeqRate(c), f);
        SettleBound(h, front[..n], front[n] + c, f);
      } else {
        SettleBound(h, front[..n], c, f);
      }
    }
  }

  lemma {:induction false} FrontParts(h: Graph, a: seq<seq<nat>>, p: seq<nat>)
    ensures AllTight(h, a + [p]) ==> AllTight(h, a) && Tight(h, p)
    ensures NonIncreasing(h, a + [p]) ==> NonIncreasing(h, a) && NoneLower(h, a, h.SeqRate(p))
  {
    hide Tight, Graph.SeqRate, FeeFrac.Higher, FeeFrac.Lower;
    var front := a + [p];
    assert front[|a|] == p;
    assert forall i :: 0 <= i < |a| ==> front[i] == a[i];
    forall i | 0 <= i < |a| && NonIncreasing(h, front) ensures !h.SeqRate(a[i]).Lower(h.SeqRate(p)) {
      assert !h.SeqRate(front[|a|]).Higher(h.SeqRate(front[i]));
      Order(h.SeqRate(p), h.SeqRate(a[i]));
    }
  }

  lemma {:induction false} SettleOrdered(h: Graph, front: seq<seq<nat>>, c: seq<nat>)
    requires h.Sized() && SetOf(Flatten(front) + c) <= h.used
    requires AllTight(h, front) && Tight(h, c) && NonIncreasing(h, front)
    ensures NonIncreasing(h, Settle(h, front, c))
  {
    hide Graph.SeqRate, Flatten, AllTight, NonIncreasing, NoneLower, DependsOn, FeeFrac.Higher, FeeFrac.Lower, Graph.Sized;
    if front == [] || !h.SeqRate(c).Higher(h.SeqRate(front[|front| - 1])) {
      Chunkings.AppendNonIncreasing(h, front, c);
    } else {
      var n := |front| - 1;
      var a, p := front[..n], front[n];
      assert front == a + [p];
      FlattenSnoc(a, p);
      SetOfThree(Flatten(a), p, c);
      FrontParts(h, a, p);
      if DependsOn(h, c, p) {
        assert Flatten(front) + c == Flatten(a) + (p + c);
        TightMerge(h, p, c);
        SettleOrdered(h, a, p + c);
      } else {
        SettleOrdered(h, a, c);
        Order(h.SeqRate(c), h.SeqRate(p));
        SettleBound(h, a, c, h.SeqRate(p));
        AppendLower(h, Settle(h, a, c), p);
      }
    }
  }

  lemma {:induction false} AppendLower(h: Graph, gs: seq<seq<nat>>, p: seq<nat>)
    requires NonIncreasing(h, gs) && NoneLower(h, gs, h.SeqRate(p))
    ensures NonIncreasing(h, gs + [p])
  {
    var r := gs + [p];
    forall i, j | 0 <= i < j < |r| ensures !h.SeqRate(r[j]).Higher(h.SeqRate(r[i])) {
      if j == |gs| { Order(h.SeqRate(p), h.SeqRate(gs[i])); }
    }
  }

  // ---------- dependencies are respected ----------

  /** Each transaction comes after its ancestors, among those listed. */
  ghost predicate Topological(h: Graph, l: seq<nat>) { h.Linearizes(SetOf(l), l) }

  lemma {:induction false} TopologicalPrefix(h: Graph, a: seq<nat>, b: seq<nat>)
    requires Topological(h, a + b)
    ensures Topological(h, a)
  {
    SetOfConcat(a, b);
    DistinctConcat(a, b);
    forall k | 0 <= k <= |a| ensures h.Closed(SetOf(a), SetOf(a[..k])) {
      assert (a + b)[..k] == a[..k];
      assert h.Closed(SetOf(a + b), SetOf((a + b)[..k]));
    }
  }

  /** Only the set of the part in front matters for what follows it. */
  lemma {:induction false} TopologicalReplace(h: Graph, a: seq<nat>, x: seq<nat>, p: seq<nat>)
    requires Topological(h, a + p) && Topological(h, x) && SetOf(x) == SetOf(a)
    ensures Topological(h, x + p)
  {
    SetOfConcat(a, p);
    SetOfConcat(x, p);
    DistinctConcat(a, p);
    DistinctConcat(x, p);
    forall k | 0 <= k <= |x + p| ensures h.Closed(SetOf(x + p), SetOf((x + p)[..k])) {
      if k <= |x| {
        assert (x + p)[..k] == x[..k];
        assert (a + p)[..|a|] == a;
        assert h.Closed(SetOf(a + p), SetOf((a + p)[..|a|]));
        assert h.Closed(SetOf(x), SetOf(x[..k]));
        assert SetOf(x[..k]) <= SetOf(x);
      } else {
        var m := k - |x|;
        assert (x + p)[..k] == x + p[..m];
        assert (a + p)[..|a| + m] == a + p[..m];
        SetOfConcat(x, p[..m]);
        SetOfConcat(a, p[..m]);
        assert h.Closed(SetOf(a + p), SetOf((a + p)[..|a| + m]));
      }
    }
  }

  /** Independent neighbours may be swapped. */
  lemma {:induction false} TopologicalSwap(h: Graph, a: seq<nat>, p: seq<nat>, c: seq<nat>)
    requires Topological(h, a + p + c) && !DependsOn(h, c, p)
    ensures Topological(h, a + c + p)
  {
    SetOfThree(a, p, c);
    SetOfThree(a, c, p);
    DistinctConcat(a + p, c);
    DistinctConcat(a, p);
    DistinctConcat(a + c, p);
    DistinctConcat(a, c);
    var all := SetOf(a + p + c);
    forall k | 0 <= k <= |a + c + p| ensures h.Closed(all, SetOf((a + c + p)[..k])) {
      if k <= |a| {
        assert (a + c + p)[..k] == a[..k] == (a + p + c)[..k];
        assert h.Closed(all, SetOf((a + p + c)[..k]));
      } else if k <= |a| + |c| {
        var m := k - |a|;
        assert (a + c + p)[..k] == a + c[..m];
        SwapMiddle(h, a, p, c, m);
      } else {
        var m := k - |a| - |c|;
        assert (a + c + p)[..k] == a + c + p[..m];
        SwapEnd(h, a, p, c, m);
      }
    }
  }

  lemma {:induction false} SwapMiddle(h: Graph, a: seq<nat>, p: seq<nat>, c: seq<nat>, m: nat)
    requires Topological(h, a + p + c) && !DependsOn(h, c, p) && m <= |c|
    ensures h.Closed(SetOf(a + p + c), SetOf(a + c[..m]))
  {
    var all := SetOf(a + p + c);
    SetOfThree(a, p, c);
    SetOfThree(a, p, c[..m]);
    assert (a + p + c)[..|a|] == a && (a + p + c)[..|a| + |p| + m] == a + p + c[..m];
    assert h.Closed(all, SetOf((a + p + c)[..|a|]));
    assert h.Closed(all, SetOf((a + p + c)[..|a| + |p| + m]));
    assert SetOf(c[..m]) <= SetOf(c);
    IndependentClosed(h, all, SetOf(a), SetOf(p), SetOf(c[..m]), SetOf(c));
  }

  lemma {:induction false} IndependentClosed(h: Graph, all: set<nat>, a: set<nat>, p: set<nat>, part: set<nat>, c: set<nat>)
    requires h.Closed(all, a) && h.Closed(all, a + p + part) && part <= c && AncestorsOf(h, c) * p == {}
    ensures h.Closed(all, a + part)
  {
    forall i, x | i in a + part && x in h.Anc(i) * all ensures x in a + part {
      if i !in a {
        assert x in AncestorsOf(h, c);
        assert x !in AncestorsOf(h, c) * p;
        assert x in a + p + part;
      }
    }
  }

  lemma {:induction false} SwapEnd(h: Graph, a: seq<nat>, p: seq<nat>, c: seq<nat>, m: nat)
    requires Topological(h, a + p + c) && !DependsOn(h, c, p) && m <= |p|
    ensures h.Closed(SetOf(a + p + c), SetOf(a + c + p[..m]))
  {
    SwapMiddle(h, a, p, c, |c|);
    assert c[..|c|] == c;
    SetOfThree(a, c, p[..m]);
    SetOfConcat(a, p[..m]);
    SetOfThree(a, p, c);
    assert (a + p + c)[..|a| + m] == a + p[..m];
    assert h.Closed(SetOf(a + p + c), SetOf((a + p + c)[..|a| + m]));
    ClosedUnion(h, SetOf(a + p + c), SetOf(a + c), SetOf(a + p[..m]));
    assert SetOf(a + c) + SetOf(a + p[..m]) == SetOf(a + c + p[..m]);
  }

  lemma {:induction false} SettledAfter(h: Graph, a: seq<nat>, p: seq<nat>, c: seq<nat>, x: seq<nat>)
    requires Topological(h, a + c + p) && Topological(h, x)
    requires SetOf(x) == SetOf(a + c) && h.SeqRate(x) == h.SeqRate(a + c)
    ensures Topological(h, x + p) && SetOf(x + p) == SetOf(a + p + c) && h.SeqRate(x + p) == h.SeqRate(a + p + c)
  {
    hide Topological, SetOf, Graph.SeqRate;
    TopologicalReplace(h, a + c, x, p);
    SetOfConcat(x, p);
    SetOfConcat(a, c);
    SetOfThree(a, p, c);
    SeqRateConcat(h, x, p);
    SeqRateConcat(h, a, c);
    SeqRateConcat(h, a + p, c);
    SeqRateConcat(h, a, p);
  }

  lemma {:induction false} SettleTopological(h: Graph, front: seq<seq<nat>>, c: seq<nat>)
    requires Topological(h, Flatten(front) + c)
    ensures Topological(h, Flatten(Settle(h, front, c)))
    ensures SetOf(Flatten(Settle(h, front, c))) == SetOf(Flatten(front) + c)
    ensures h.SeqRate(Flatten(Settle(h, front, c))) == h.SeqRate(Flatten(front) + c)
  {
    if front == [] || !h.SeqRate(c).Higher(h.SeqRate(front[|front| - 1])) {
      FlattenSnoc(front, c);
    } else {
      var n := |front| - 1;
      var a, p := front[..n], front[n];
      assert front == a + [p];
      FlattenSnoc(a, p);
      if DependsOn(h, c, p) {
        assert Flatten(front) + c == Flatten(a) + (p + c);
        SettleTopological(h, a, p + c);
      } else {
        TopologicalSwap(h, Flatten(a), p, c);
        TopologicalPrefix(h, Flatten(a) + c, p);
        SettleTopological(h, a, c);
        FlattenSnoc(Settle(h, a, c), p);
        SettledAfter(h, Flatten(a), p, c, Flatten(Settle(h, a, c)));
      }
    }
  }

  // ---------- the diagram never gets worse ----------

  /** Swapping adjacent unbreakable pieces so that the higher-feerate one comes first. */
  lemma {:induction false} SwapAsGood(h: Graph, a: seq<nat>, p: seq<nat>, c: seq<nat>)
    requires h.Sized() && SetOf(p) <= h.used && SetOf(c) <= h.used && Tight(h, p) && Tight(h, c)
    requires h.SeqRate(c).Higher(h.SeqRate(p))
    ensures AsGood(h, a + c + p, a + p + c)
  {
    forall slope: real ensures Peak(h, slope, p + c) <= Peak(h, slope, c + p) {
      PeakConcat(h, slope, p, c);
      PeakConcat(h, slope, c, p);
      TightPeak(h, slope, p);
      TightPeak(h, slope, c);
      SeqRateSize(h, p);
      SeqRateSize(h, c);
      if Height(h, slope, p) >= 0.0 {
        Order(h.SeqRate(c), h.SeqRate(p));
        ExcessOrder(slope, h.SeqRate(p), h.SeqRate(c));
      }
    }
    assert AsGood(h, c + p, p + c);
    AsGoodContext(h, a, c + p, p + c, []);
    assert a + (c + p) + [] == a + c + p && a + (p + c) + [] == a + p + c;
  }

  lemma {:induction false} SettleAsGood(h: Graph, front: seq<seq<nat>>, c: seq<nat>)
    requires h.Sized() && SetOf(Flatten(front) + c) <= h.used && AllTight(h, front) && Tight(h, c)
    requires Topological(h, Flatten(front) + c)
    ensures AsGood(h, Flatten(Settle(h, front, c)), Flatten(front) + c)
  {
    hide Graph.SeqRate, Flatten, Tight, AllTight, Topological, AsGood, DependsOn, FeeFrac.Higher, Graph.Sized;
    if front == [] || !h.SeqRate(c).Higher(h.SeqRate(front[|front| - 1])) {
      FlattenSnoc(front, c);
      AsGoodSelf(h, Flatten(front) + c);
    } else {
      var n := |front| - 1;
      var a, p := front[..n], front[n];
      assert front == a + [p];
      FlattenSnoc(a, p);
      var fa := Flatten(a);
      SetOfThree(fa, p, c);
      FrontParts(h, a, p);
      if DependsOn(h, c, p) {
        assert Flatten(front) + c == fa + (p + c);
        TightMerge(h, p, c);
        SettleAsGood(h, a, p + c);
      } else {
        TopologicalSwap(h, fa, p, c);
        TopologicalPrefix(h, fa + c, p);
        SettleAsGood(h, a, c);
        SettleTopological(h, a, c);
        SwapThenSettle(h, fa, p, c, Flatten(Settle(h, a, c)));
        FlattenSnoc(Settle(h, a, c), p);
      }
    }
  }

  lemma {:induction false} AsGoodSelf(h: Graph, l: seq<nat>)
    ensures AsGood(h, l, l)
  {
  }

  lemma {:induction false} SwapThenSettle(h: Graph, a: seq<nat>, p: seq<nat>, c: seq<nat>, x: seq<nat>)
    requires h.Sized() && SetOf(p) <= h.used && SetOf(c) <= h.used && Tight(h, p) && Tight(h, c)
    requires h.SeqRate(c).Higher(h.SeqRate(p))
    requires AsGood(h, x, a + c) && h.SeqRate(x) == h.SeqRate(a + c)
    ensures AsGood(h, x + p, a + p + c)
  {
    hide *;
    SwapAsGood(h, a, p, c);
    AsGoodContext(h, [], x, a + c, p);
    assert [] + x + p == x + p && [] + (a + c) + p == a + c + p;
    AsGoodTrans(h, x + p, a + c + p, a + p + c);
  }

  // ---------- groups are connected ----------

  ghost predicate AllConnected(h: Graph, gs: seq<seq<nat>>) {
    forall i :: 0 <= i < |gs| ==> Connected(h, SetOf(gs[i]))
  }

  /** Two connected sets with a dependency between them form a connected set. */
  lemma {:induction false} ConnectedUnion(h: Graph, a: set<nat>, b: set<nat>, x: nat, y: nat)
    requires h.Valid() && a + b <= h.used && Connected(h, a) && Connected(h, b)
    requires x in a && y in b && Adjacent(h, x, y)
    ensures Connected(h, a + b)
  {
    forall t | t != {} && Apart(h, a + b, t) ensures t == a + b {
      AdjacentSym(h, x, y);
      assert Apart(h, a, t * a) && Apart(h, b, t * b);
      assert t * a == {} || t * a == a;
      assert t * b == {} || t * b == b;
      assert t == t * a + t * b;
      assert x in t <==> y in t;
    }
  }

  lemma {:induction false} MergeConnected(h: Graph, p: seq<nat>, c: seq<nat>)
    requires h.Valid() && SetOf(p + c) <= h.used && Connected(h, SetOf(p)) && Connected(h, SetOf(c)) && DependsOn(h, c, p)
    ensures Connected(h, SetOf(p + c))
  {
    SetOfConcat(p, c);
    var y :| y in AncestorsOf(h, SetOf(c)) * SetOf(p);
    var x :| x in SetOf(c) && y in h.Anc(x);
    AdjacentSym(h, x, y);
    ConnectedUnion(h, SetOf(p), SetOf(c), y, x);
  }

  lemma {:induction false} ConnectedSnoc(h: Graph, a: seq<seq<nat>>, p: seq<nat>)
    ensures AllConnected(h, a + [p]) <==> AllConnected(h, a) && Connected(h, SetOf(p))
  {
    hide Connected, SetOf;
    var front := a + [p];
    assert front[|a|] == p && forall i :: 0 <= i < |a| ==> front[i] == a[i];
  }

  lemma {:induction false} SettleConnected(h: Graph, front: seq<seq<nat>>, c: seq<nat>)
    requires h.Valid() && SetOf(Flatten(front) + c) <= h.used && AllConnected(h, front) && Connected(h, SetOf(c))
    ensures AllConnected(h, Settle(h, front, c))
  {
    hide Graph.SeqRate, Flatten, Connected, AllConnected, DependsOn, FeeFrac.Higher, Graph.Valid;
    if front == [] || !h.SeqRate(c).Higher(h.SeqRate(front[|front| - 1])) {
      ConnectedSnoc(h, front, c);
    } else {
      var n := |front| - 1;
      var a, p := front[..n], front[n];
      assert front == a + [p];
      ConnectedSnoc(h, a, p);
      FlattenSnoc(a, p);
      SetOfThree(Flatten(a), p, c);
      if DependsOn(h, c, p) {
        MergeConnected(h, p, c);
        assert Flatten(front) + c == Flatten(a) + (p + c);
        SettleConnected(h, a, p + c);
      } else {
        SettleConnected(h, a, c);
        ConnectedSnoc(h, Settle(h, a, c), p);
      }
    }
  }

  lemma {:induction false} ConnectedOne(h: Graph, x: nat)
    ensures Connected(h, {x})
  {
    forall t | t != {} && Apart(h, {x}, t) ensures t == {x} {
      var y :| y in t;
    }
  }

  // ---------- a whole pass ----------

  /** Everything one pass promises about its groups. */
  ghost predicate PassResult(h: Graph, l: seq<nat>, gs: seq<seq<nat>>) {
    && IsChunking(h, Flatten(gs), gs) && AllConnected(h, gs)
    && Topological(h, Flatten(gs)) && SetOf(Flatten(gs)) == SetOf(l) && h.SeqRate(Flatten(gs)) == h.SeqRate(l)
    && AsGood(h, Flatten(gs), l)
  }

  lemma {:induction false} PassCorrect(h: Graph, l: seq<nat>)
    requires h.Valid() && h.Sized() && SetOf(l) <= h.used && Topological(h, l)
    ensures PassResult(h, l, Pass(h, l))
  {
    if l == [] {
    } else {
      var n := |l| - 1;
      var m, c := l[..n], [l[n]];
      assert l == m + c;
      SetOfConcat(m, c);
      TopologicalPrefix(h, m, c);
      PassCorrect(h, m);
      PassStep(h, m, Pass(h, m), c);
    }
  }

  lemma {:induction false} PassStep(h: Graph, m: seq<nat>, gs: seq<seq<nat>>, c: seq<nat>)
    requires h.Valid() && h.Sized() && SetOf(m + c) <= h.used && |c| == 1 && Topological(h, m + c)
    requires PassResult(h, m, gs)
    ensures PassResult(h, m + c, Settle(h, gs, c))
    ensures AsGood(h, Flatten(Settle(h, gs, c)), Flatten(gs) + c)
  {
    hide Settle, Graph.Valid, Graph.Sized, Topological, AsGood, Flatten, Graph.SeqRate, AllConnected, AllTight, NonIncreasing, Connected, Tight;
    var f := Flatten(gs);
    TopologicalReplace(h, m, f, c);
    SetOfConcat(m, c);
    SetOfConcat(f, c);
    TightSingle(h, c);
    SettleTight(h, gs, c);
    SettleOrdered(h, gs, c);
    ConnectedOne(h, c[0]);
    assert SetOf(c) == {c[0]};
    SettleConnected(h, gs, c);
    SettleTopological(h, gs, c);
    SettleAsGood(h, gs, c);
    SeqRateConcat(h, m, c);
    SeqRateConcat(h, f, c);
    AsGoodContext(h, [], f, m, c);
    assert [] + f + c == f + c && [] + m + c == m + c;
    AsGoodTrans(h, Flatten(Settle(h, gs, c)), f + c, m + c);
  }
}
