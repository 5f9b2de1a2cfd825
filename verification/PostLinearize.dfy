/** PostLinearize on its linked entries (src/cluster_linearize.h:1142-1295): groups are singly
    linked from back to front, and the groups themselves form a circular list through a
    sentinel at index 0; transaction t is at index t + 1. */
module PostLinearization {
  import opened FeeFracs
  import opened Sets
  import opened Graphs
  import opened Diagrams
  import opened DepGraphs
  import opened PostPasses
  import opened PostTrees
  import opened PostGuarantees
  import Chunkings

  /** prevTx: previous transaction in the group, 0 for its first.  The other fields are only used
      for the last transaction of a group: the group's first transaction, the last transaction of
      the previous group, and the group's transactions, dependencies and feerate. */
  datatype TxEntry = TxEntry(prevTx: nat, firstTx: nat, prevGroup: nat, group: set<nat>, deps: set<nat>, feerate: FeeFrac)

  // ---------- what the links represent ----------

  /** Index of the last transaction of a group. */
  ghost function Tail(c: seq<nat>): nat { if c == [] then 0 else c[|c| - 1] + 1 }

  /** Index of the last transaction before what follows gs. */
  ghost function LastTail(prev: nat, gs: seq<seq<nat>>): nat { if gs == [] then prev else Tail(gs[|gs| - 1]) }

  ghost predicate GroupLinks(h: Graph, es: seq<TxEntry>, c: seq<nat>) {
    && c != [] && (forall k :: 0 <= k < |c| ==> c[k] + 1 < |es|)
    && es[c[0] + 1].prevTx == 0 && (forall k :: 0 < k < |c| ==> es[c[k] + 1].prevTx == c[k - 1] + 1)
    && var t := es[Tail(c)];
       t.firstTx == c[0] + 1 && t.group == SetOf(c) && t.deps == AncestorsOf(h, SetOf(c)) && t.feerate == h.SeqRate(c)
  }

  ghost predicate AllLinks(h: Graph, es: seq<TxEntry>, gs: seq<seq<nat>>) {
    forall k :: 0 <= k < |gs| ==> GroupLinks(h, es, gs[k])
  }

  /** Each group points to the one before it, the first one to `prev`. */
  ghost predicate ChainOk(es: seq<TxEntry>, prev: nat, gs: seq<seq<nat>>)
    decreases |gs|
  {
    gs == [] || (Tail(gs[0]) < |es| && es[Tail(gs[0])].prevGroup == prev && ChainOk(es, Tail(gs[0]), gs[1..]))
  }

  ghost predicate Links(h: Graph, es: seq<TxEntry>, gs: seq<seq<nat>>) {
    && es != [] && es[0].feerate == EMPTY && es[0].prevGroup == LastTail(0, gs)
    && Distinct(Flatten(gs)) && AllLinks(h, es, gs) && ChainOk(es, 0, gs)
  }

  lemma {:induction false} ChainConcat(es: seq<TxEntry>, prev: nat, a: seq<seq<nat>>, b: seq<seq<nat>>)
    ensures ChainOk(es, prev, a + b) <==> ChainOk(es, prev, a) && ChainOk(es, LastTail(prev, a), b)
    decreases |a|
  {
    if a == [] {
      assert a + b == b;
    } else {
      assert (a + b)[1..] == a[1..] + b;
      ChainConcat(es, Tail(a[0]), a[1..], b);
      assert LastTail(prev, a) == LastTail(Tail(a[0]), a[1..]);
    }
  }

  /** Links of groups whose tails keep their prevGroup stay intact. */
  lemma {:induction false} ChainFrame(es: seq<TxEntry>, es': seq<TxEntry>, prev: nat, gs: seq<seq<nat>>)
    requires ChainOk(es, prev, gs) && |es'| == |es|
    requires forall k :: 0 <= k < |gs| && Tail(gs[k]) < |es| ==> es'[Tail(gs[k])].prevGroup == es[Tail(gs[k])].prevGroup
    ensures ChainOk(es', prev, gs)
    decreases |gs|
  {
    if gs != [] {
      assert es'[Tail(gs[0])].prevGroup == es[Tail(gs[0])].prevGroup;
      forall k | 0 <= k < |gs[1..]| && Tail(gs[1..][k]) < |es|
        ensures es'[Tail(gs[1..][k])].prevGroup == es[Tail(gs[1..][k])].prevGroup
      {
        assert gs[1..][k] == gs[k + 1];
      }
      ChainFrame(es, es', Tail(gs[0]), gs[1..]);
    }
  }

  /** Entries of a group unchanged, except perhaps for prevGroup. */
  ghost predicate SameGroup(es: seq<TxEntry>, es': seq<TxEntry>, c: seq<nat>) {
    |es'| == |es| && forall t :: t in c && t + 1 < |es| ==> es'[t + 1].(prevGroup := 0) == es[t + 1].(prevGroup := 0)
  }

  lemma {:induction false} GroupFrame(h: Graph, es: seq<TxEntry>, es': seq<TxEntry>, c: seq<nat>)
    requires GroupLinks(h, es, c) && SameGroup(es, es', c)
    ensures GroupLinks(h, es', c)
  {
    forall k | 0 <= k < |c| ensures es'[c[k] + 1].(prevGroup := 0) == es[c[k] + 1].(prevGroup := 0) { assert c[k] in c; }
    assert c[0] in c;
  }

  /** What changed: only entries of indices in `touched`. */
  ghost predicate OnlyTouched(es: seq<TxEntry>, es': seq<TxEntry>, touched: set<nat>) {
    |es'| == |es| && forall i :: 0 <= i < |es| && i !in touched ==> es'[i] == es[i]
  }

  lemma {:induction false} AllFrame(h: Graph, es: seq<TxEntry>, es': seq<TxEntry>, gs: seq<seq<nat>>, touched: set<nat>)
    requires AllLinks(h, es, gs) && OnlyTouched(es, es', touched)
    requires forall t :: t in Flatten(gs) && t + 1 in touched && t + 1 < |es| ==> es'[t + 1].(prevGroup := 0) == es[t + 1].(prevGroup := 0)
    ensures AllLinks(h, es', gs)
  {
    forall k | 0 <= k < |gs| ensures GroupLinks(h, es', gs[k]) {
      FlattenMember(gs, k);
      forall t | t in gs[k] && t + 1 < |es| ensures es'[t + 1].(prevGroup := 0) == es[t + 1].(prevGroup := 0) {
        assert t in SetOf(gs[k]);
        assert t in Flatten(gs);
      }
      GroupFrame(h, es, es', gs[k]);
    }
  }

  lemma {:induction false} TailIn(gs: seq<seq<nat>>, k: nat)
    requires k < |gs| && gs[k] != []
    ensures Tail(gs[k]) > 0 && Tail(gs[k]) - 1 in Flatten(gs)
  {
    FlattenMember(gs, k);
    var c := gs[k];
    assert c[|c| - 1] in SetOf(c);
  }

  // ---------- adding a group at the end ----------

  lemma {:induction false} AppendLinks(h: Graph, es: seq<TxEntry>, gs: seq<seq<nat>>, idx: nat, es': seq<TxEntry>)
    requires Links(h, es, gs) && idx !in Flatten(gs) && idx + 1 < |es| == |es'| && OnlyTouched(es, es', {0, idx + 1})
    requires es'[idx + 1] == TxEntry(0, idx + 1, es[0].prevGroup, {idx}, h.Anc(idx), h.Rate(idx))
    requires es'[0] == es[0].(prevGroup := idx + 1)
    ensures Links(h, es', gs + [[idx]])
  {
    hide *;
    LinksUnpack(h, es, gs);
    NewGroup(h, es', idx, [idx]);
    AppendChain(h, es, gs, idx, es');
    AllFrame(h, es, es', gs, {0, idx + 1});
    AppendDistinct(gs, idx);
    AllLinksConcat(h, es', gs, [[idx]]);
    AllLinksOne(h, es', [idx]);
    LastTailSnoc(gs, [idx]);
    LinksPack(h, es', gs + [[idx]]);
  }

  lemma {:induction false} LinksUnpack(h: Graph, es: seq<TxEntry>, gs: seq<seq<nat>>)
    requires Links(h, es, gs)
    ensures es != [] && es[0].feerate == EMPTY && es[0].prevGroup == LastTail(0, gs)
    ensures Distinct(Flatten(gs)) && AllLinks(h, es, gs) && ChainOk(es, 0, gs)
  {
  }

  lemma {:induction false} LinksPack(h: Graph, es: seq<TxEntry>, gs: seq<seq<nat>>)
    requires es != [] && es[0].feerate == EMPTY && es[0].prevGroup == LastTail(0, gs)
    requires Distinct(Flatten(gs)) && AllLinks(h, es, gs) && ChainOk(es, 0, gs)
    ensures Links(h, es, gs)
  {
  }

  lemma {:induction false} AllLinksConcat(h: Graph, es: seq<TxEntry>, a: seq<seq<nat>>, b: seq<seq<nat>>)
    ensures AllLinks(h, es, a + b) <==> AllLinks(h, es, a) && AllLinks(h, es, b)
  {
    var r := a + b;
    if AllLinks(h, es, r) {
      forall k | 0 <= k < |a| ensures GroupLinks(h, es, a[k]) { assert r[k] == a[k]; }
      forall k | 0 <= k < |b| ensures GroupLinks(h, es, b[k]) { assert r[|a| + k] == b[k]; }
    }
  }

  lemma {:induction false} AllLinksOne(h: Graph, es: seq<TxEntry>, c: seq<nat>)
    ensures AllLinks(h, es, [c]) <==> GroupLinks(h, es, c)
  {
    assert [c][0] == c;
  }

  lemma {:induction false} LastTailSnoc(gs: seq<seq<nat>>, c: seq<nat>)
    requires c != []
    ensures LastTail(0, gs + [c]) == c[|c| - 1] + 1 == Tail(c)
  {
  }

  lemma {:induction false} AppendDistinct(gs: seq<seq<nat>>, idx: nat)
    requires Distinct(Flatten(gs)) && idx !in Flatten(gs)
    ensures Distinct(Flatten(gs + [[idx]]))
  {
    FlattenSnoc(gs, [idx]);
    DistinctConcat(Flatten(gs), [idx]);
  }

  lemma {:induction false} NewGroup(h: Graph, es: seq<TxEntry>, idx: nat, c: seq<nat>)
    requires idx + 1 < |es| && |c| == 1 && c[0] == idx
    requires es[idx + 1].prevTx == 0 && es[idx + 1].firstTx == idx + 1
    requires es[idx + 1].group == {idx} && es[idx + 1].deps == h.Anc(idx) && es[idx + 1].feerate == h.Rate(idx)
    ensures GroupLinks(h, es, c)
  {
    hide Graph.SeqRate, Graph.Anc, Graph.Rate, AncestorsOf;
    assert SetOf(c) == {idx};
    SeqRateSingle(h, c);
    AncestorsOne(h, SetOf(c), idx);
  }

  lemma {:induction false} AncestorsOne(h: Graph, s: set<nat>, x: nat)
    requires s == {x}
    ensures AncestorsOf(h, s) == h.Anc(x)
  {
    hide Graph.Anc;
  }

  lemma {:induction false} AppendChain(h: Graph, es: seq<TxEntry>, gs: seq<seq<nat>>, idx: nat, es': seq<TxEntry>)
    requires AllLinks(h, es, gs) && ChainOk(es, 0, gs) && idx !in Flatten(gs) && idx + 1 < |es| && OnlyTouched(es, es', {0, idx + 1})
    requires es'[idx + 1].prevGroup == LastTail(0, gs)
    ensures ChainOk(es', 0, gs + [[idx]])
  {
    hide *;
    AppendAvoids(h, es, gs, idx, es');
    ChainElsewhere(es, es', 0, gs, {0, idx + 1});
    ChainConcat(es', 0, gs, [[idx]]);
    ChainOne(es', LastTail(0, gs), [idx]);
  }

  lemma {:induction false} AppendAvoids(h: Graph, es: seq<TxEntry>, gs: seq<seq<nat>>, idx: nat, es': seq<TxEntry>)
    requires AllLinks(h, es, gs) && idx !in Flatten(gs) && idx + 1 < |es| && OnlyTouched(es, es', {0, idx + 1})
    ensures Elsewhere(es, es', {0, idx + 1}) && TailsAvoid(gs, {0, idx + 1}) && Tail([idx]) == idx + 1 && |es'| == |es|
  {
    hide AllLinks, Flatten;
    TailsElsewhere(h, es, gs, {0, idx + 1});
  }

  // ---------- merging the previous group into the current one ----------

  /** The entries after the merge. */
  ghost function MergedEntries(es: seq<TxEntry>, cur: nat, prev: nat, first: nat): seq<TxEntry>
    requires cur < |es| && prev < |es| && first < |es|
  {
    var e := es[first := es[first].(prevTx := prev)];
    e[cur := e[cur].(group := es[cur].group + es[prev].group, deps := es[cur].deps + es[prev].deps,
                     feerate := es[cur].feerate.Plus(es[prev].feerate), firstTx := es[prev].firstTx, prevGroup := es[prev].prevGroup)]
  }

  /** a, then p and c, then b, with everything distinct. */
  ghost function Around(a: seq<seq<nat>>, p: seq<nat>, c: seq<nat>, b: seq<seq<nat>>): seq<seq<nat>> { a + [p] + [c] + b }

  lemma {:induction false} AroundLinks(h: Graph, es: seq<TxEntry>, a: seq<seq<nat>>, p: seq<nat>, c: seq<nat>, b: seq<seq<nat>>)
    requires AllLinks(h, es, Around(a, p, c, b))
    ensures AllLinks(h, es, a) && GroupLinks(h, es, p) && GroupLinks(h, es, c) && AllLinks(h, es, b)
  {
    AllLinksConcat(h, es, a + [p] + [c], b);
    AllLinksConcat(h, es, a + [p], [c]);
    AllLinksConcat(h, es, a, [p]);
    AllLinksOne(h, es, p);
    AllLinksOne(h, es, c);
  }

  lemma {:induction false} AroundChain(es: seq<TxEntry>, a: seq<seq<nat>>, p: seq<nat>, c: seq<nat>, b: seq<seq<nat>>)
    ensures ChainOk(es, 0, Around(a, p, c, b)) <==>
              && ChainOk(es, 0, a)
              && Tail(p) < |es| && es[Tail(p)].prevGroup == LastTail(0, a)
              && Tail(c) < |es| && es[Tail(c)].prevGroup == Tail(p)
              && ChainOk(es, Tail(c), b)
  {
    ChainConcat(es, 0, a + [p] + [c], b);
    ChainConcat(es, 0, a + [p], [c]);
    ChainConcat(es, 0, a, [p]);
    ChainOne(es, LastTail(0, a), p);
    ChainOne(es, LastTail(0, a + [p]), c);
  }

  lemma {:induction false} ChainOne(es: seq<TxEntry>, prev: nat, c: seq<nat>)
    ensures ChainOk(es, prev, [c]) <==> Tail(c) < |es| && es[Tail(c)].prevGroup == prev
  {
    assert [c][1..] == [];
  }

  lemma {:induction false} AroundFlat(a: seq<seq<nat>>, p: seq<nat>, c: seq<nat>, b: seq<seq<nat>>)
    ensures Flatten(Around(a, p, c, b)) == Flatten(a) + p + c + Flatten(b)
    ensures Flatten(a + [p + c] + b) == Flatten(a) + p + c + Flatten(b)
  {
    FlattenConcat(a + [p] + [c], b);
    FlattenSnoc(a + [p], c);
    FlattenSnoc(a, p);
    FlattenConcat(a + [p + c], b);
    FlattenSnoc(a, p + c);
    assert Flatten(a) + (p + c) == Flatten(a) + p + c;
  }

  /** The transactions around the current group are others. */
  lemma {:induction false} Apartness(fa: seq<nat>, p: seq<nat>, c: seq<nat>, fb: seq<nat>)
    requires Distinct(fa + p + c + fb)
    ensures (forall t :: t in c ==> t !in fa && t !in p && t !in fb)
    ensures (forall t :: t in p ==> t !in fa && t !in fb)
    ensures Distinct(c) && Distinct(p) && Distinct(fa + c + p + fb)
  {
    DistinctConcat(fa + p + c, fb);
    DistinctConcat(fa + p, c);
    DistinctConcat(fa, p);
    SetOfConcat(fa + p, c);
    SetOfConcat(fa, p);
    DistinctConcat(fa, c);
    SetOfConcat(fa, c);
    DistinctConcat(fa + c, p);
    SetOfConcat(fa + c, p);
    DistinctConcat(fa + c + p, fb);
    forall t | t in c ensures t !in fa && t !in p && t !in fb { assert t in SetOf(c); }
    forall t | t in p ensures t !in fa && t !in fb { assert t in SetOf(p); }
  }

  lemma {:induction false} MergedGroup(h: Graph, es: seq<TxEntry>, p: seq<nat>, c: seq<nat>)
    requires GroupLinks(h, es, p) && GroupLinks(h, es, c) && Distinct(c) && forall t :: t in c ==> t !in p
    ensures GroupLinks(h, MergedEntries(es, Tail(c), Tail(p), es[Tail(c)].firstTx), p + c)
  {
    var es' := MergedEntries(es, Tail(c), Tail(p), es[Tail(c)].firstTx);
    var d := p + c;
    SetOfConcat(p, c);
    SeqRateConcat(h, p, c);
    AncestorsJoin(h, SetOf(p), SetOf(c));
    MergedPrev(h, es, p, c);
  }

  lemma {:induction false} AncestorsJoin(h: Graph, a: set<nat>, b: set<nat>)
    ensures AncestorsOf(h, a + b) == AncestorsOf(h, a) + AncestorsOf(h, b)
  {
    forall x | x in AncestorsOf(h, a) + AncestorsOf(h, b) ensures x in AncestorsOf(h, a + b) {
      var p :| p in a + b && x in h.Anc(p);
    }
  }

  lemma {:induction false} MergedPrev(h: Graph, es: seq<TxEntry>, p: seq<nat>, c: seq<nat>)
    requires GroupLinks(h, es, p) && GroupLinks(h, es, c) && Distinct(c) && forall t :: t in c ==> t !in p
    ensures var es' := MergedEntries(es, Tail(c), Tail(p), es[Tail(c)].firstTx); var d := p + c;
            && (forall k :: 0 <= k < |d| ==> d[k] + 1 < |es'|)
            && es'[d[0] + 1].prevTx == 0 && (forall k :: 0 < k < |d| ==> es'[d[k] + 1].prevTx == d[k - 1] + 1)
            && Tail(d) == Tail(c)
  {
    hide SetOf, AncestorsOf, Graph.SeqRate;
    var es' := MergedEntries(es, Tail(c), Tail(p), es[Tail(c)].firstTx);
    var d := p + c;
    assert c[0] in c && c[|c| - 1] in c && p[0] in p;
    assert |es'| == |es| && es'[c[0] + 1].prevTx == Tail(p);
    assert forall i :: 0 <= i < |es| && i != c[0] + 1 ==> es'[i].prevTx == es[i].prevTx;
    hide MergedEntries;
    forall k | 0 < k < |d| ensures es'[d[k] + 1].prevTx == d[k - 1] + 1 { JoinedPrev(es, es', p, c, k); }
  }

  lemma {:induction false} JoinedPrev(es: seq<TxEntry>, es': seq<TxEntry>, p: seq<nat>, c: seq<nat>, k: nat)
    requires p != [] && c != [] && Distinct(c) && (forall t :: t in c ==> t !in p) && 0 < k < |p + c|
    requires |es'| == |es| && (forall j :: 0 <= j < |p| ==> p[j] + 1 < |es|) && (forall j :: 0 <= j < |c| ==> c[j] + 1 < |es|)
    requires forall j :: 0 < j < |p| ==> es[p[j] + 1].prevTx == p[j - 1] + 1
    requires forall j :: 0 < j < |c| ==> es[c[j] + 1].prevTx == c[j - 1] + 1
    requires es'[c[0] + 1].prevTx == Tail(p) && forall i :: 0 <= i < |es| && i != c[0] + 1 ==> es'[i].prevTx == es[i].prevTx
    ensures es'[(p + c)[k] + 1].prevTx == (p + c)[k - 1] + 1
  {
    var d := p + c;
    if k < |p| {
      assert d[k] == p[k] && p[k] in p && c[0] in c;
    } else if k > |p| {
      assert d[k] == c[k - |p|] && c[k - |p|] != c[0];
    }
  }

  lemma {:induction false} MergeLinks(h: Graph, es: seq<TxEntry>, a: seq<seq<nat>>, p: seq<nat>, c: seq<nat>, b: seq<seq<nat>>)
    requires Links(h, es, Around(a, p, c, b))
    ensures Tail(c) < |es| && Tail(p) < |es| && es[Tail(c)].firstTx < |es|
    ensures Links(h, MergedEntries(es, Tail(c), Tail(p), es[Tail(c)].firstTx), a + [p + c] + b)
  {
    hide *;
    LinksUnpack(h, es, Around(a, p, c, b));
    AroundLinks(h, es, a, p, c, b);
    AroundFlat(a, p, c, b);
    Apartness(Flatten(a), p, c, Flatten(b));
    GroupRange(h, es, c);
    GroupRange(h, es, p);
    var es' := MergedEntries(es, Tail(c), Tail(p), es[Tail(c)].firstTx);
    MergeTouched(es, Tail(c), Tail(p), es[Tail(c)].firstTx);
    MergedGroup(h, es, p, c);
    AllFrame(h, es, es', a, {Tail(c), es[Tail(c)].firstTx});
    AllFrame(h, es, es', b, {Tail(c), es[Tail(c)].firstTx});
    AllLinksOne(h, es', p + c);
    AllLinksConcat(h, es', a, [p + c]);
    AllLinksConcat(h, es', a + [p + c], b);
    MergeChain(h, es, a, p, c, b);
    MergeLast(a, p, c, b);
    LinksPack(h, es', a + [p + c] + b);
  }

  lemma {:induction false} GroupRange(h: Graph, es: seq<TxEntry>, c: seq<nat>)
    requires GroupLinks(h, es, c)
    ensures c != [] && 0 < Tail(c) < |es| && 0 < es[Tail(c)].firstTx < |es|
    ensures es[Tail(c)].firstTx - 1 in c && Tail(c) - 1 in c
  {
  }

  lemma {:induction false} MergeTouched(es: seq<TxEntry>, cur: nat, prev: nat, first: nat)
    requires cur < |es| && prev < |es| && first < |es| && cur > 0 && first > 0
    ensures var es' := MergedEntries(es, cur, prev, first);
            OnlyTouched(es, es', {cur, first}) && |es'| == |es| && es'[0] == es[0]
  {
  }

  lemma {:induction false} MergeLast(a: seq<seq<nat>>, p: seq<nat>, c: seq<nat>, b: seq<seq<nat>>)
    requires c != []
    ensures LastTail(0, a + [p + c] + b) == LastTail(0, Around(a, p, c, b))
  {
  }

  lemma {:induction false} MergeChain(h: Graph, es: seq<TxEntry>, a: seq<seq<nat>>, p: seq<nat>, c: seq<nat>, b: seq<seq<nat>>)
    requires Tail(c) < |es| && Tail(p) < |es| && es[Tail(c)].firstTx < |es| && c != [] && es[Tail(c)].firstTx > 0
    requires AllLinks(h, es, a) && AllLinks(h, es, b) && ChainOk(es, 0, Around(a, p, c, b))
    requires forall t :: t in Flatten(a) || t in Flatten(b) ==> t + 1 != Tail(c) && t + 1 != es[Tail(c)].firstTx
    ensures ChainOk(MergedEntries(es, Tail(c), Tail(p), es[Tail(c)].firstTx), 0, a + [p + c] + b)
  {
    hide *;
    var cur, first := Tail(c), es[Tail(c)].firstTx;
    var es' := MergedEntries(es, cur, Tail(p), first);
    MergedAt(es, cur, Tail(p), first);
    AroundChain(es, a, p, c, b);
    TailsElsewhere(h, es, a, {cur, first});
    TailsElsewhere(h, es, b, {cur, first});
    ChainElsewhere(es, es', 0, a, {cur, first});
    ChainElsewhere(es, es', cur, b, {cur, first});
    ChainConcat(es', 0, a + [p + c], b);
    ChainConcat(es', 0, a, [p + c]);
    ChainOne(es', LastTail(0, a), p + c);
    LastTailSnoc(a, p + c);
    TailOf(p, c, b);
  }

  lemma {:induction false} MergedAt(es: seq<TxEntry>, cur: nat, prev: nat, first: nat)
    requires cur < |es| && prev < |es| && first < |es|
    ensures var es' := MergedEntries(es, cur, prev, first);
            |es'| == |es| && Elsewhere(es, es', {cur, first}) && es'[cur].prevGroup == es[prev].prevGroup
  {
  }

  // ---------- swapping the previous group with the current one ----------

  /** The entries after [PP, P, C, N] became [PP, C, P, N]. */
  ghost function SwappedEntries(es: seq<TxEntry>, cur: nat, prev: nat, next: nat): seq<TxEntry>
    requires cur < |es| && prev < |es| && next < |es|
  {
    var e := es[next := es[next].(prevGroup := prev)];
    var f := e[prev := e[prev].(prevGroup := cur)];
    f[cur := f[cur].(prevGroup := es[prev].prevGroup)]
  }

  ghost function NextTail(b: seq<seq<nat>>): nat { if b == [] then 0 else Tail(b[0]) }

  lemma {:induction false} SwapLinks(h: Graph, es: seq<TxEntry>, a: seq<seq<nat>>, p: seq<nat>, c: seq<nat>, b: seq<seq<nat>>)
    requires Links(h, es, Around(a, p, c, b))
    ensures Tail(c) < |es| && Tail(p) < |es| && NextTail(b) < |es|
    ensures Links(h, SwappedEntries(es, Tail(c), Tail(p), NextTail(b)), Around(a, c, p, b))
  {
    hide *;
    LinksUnpack(h, es, Around(a, p, c, b));
    AroundLinks(h, es, a, p, c, b);
    AroundFlat(a, p, c, b);
    AroundFlat(a, c, p, b);
    Apartness(Flatten(a), p, c, Flatten(b));
    GroupRange(h, es, c);
    GroupRange(h, es, p);
    NextRange(h, es, b);
    var es' := SwappedEntries(es, Tail(c), Tail(p), NextTail(b));
    OnlyPrevGroup(es, Tail(c), Tail(p), NextTail(b));
    AllPrevGroup(h, es, es', a);
    AllPrevGroup(h, es, es', b);
    AllPrevGroup(h, es, es', [p]) by { AllLinksOne(h, es, p); }
    AllPrevGroup(h, es, es', [c]) by { AllLinksOne(h, es, c); }
    AllLinksConcat(h, es', a, [c]);
    AllLinksConcat(h, es', a + [c], [p]);
    AllLinksConcat(h, es', a + [c] + [p], b);
    AroundIs(a, c, p, b);
    SwapChain(h, es, a, p, c, b);
    LinksPack(h, es', Around(a, c, p, b));
  }

  lemma {:induction false} AroundIs(a: seq<seq<nat>>, p: seq<nat>, c: seq<nat>, b: seq<seq<nat>>)
    ensures Around(a, p, c, b) == a + [p] + [c] + b
  {
  }

  lemma {:induction false} NextRange(h: Graph, es: seq<TxEntry>, b: seq<seq<nat>>)
    requires AllLinks(h, es, b) && es != []
    ensures NextTail(b) < |es| && (b != [] ==> NextTail(b) > 0 && NextTail(b) - 1 in Flatten(b))
  {
    hide Flatten, GroupLinks, AllLinks;
    if b != [] {
      AllLinksAt(h, es, b, 0);
      GroupRange(h, es, b[0]);
      TailIn(b, 0);
    }
  }

  lemma {:induction false} AllLinksAt(h: Graph, es: seq<TxEntry>, gs: seq<seq<nat>>, k: nat)
    requires AllLinks(h, es, gs) && k < |gs|
    ensures GroupLinks(h, es, gs[k])
  {
  }

  /** Entries differ in prevGroup only. */
  ghost predicate PrevGroupOnly(es: seq<TxEntry>, es': seq<TxEntry>) {
    |es'| == |es| && forall i :: 0 <= i < |es| ==> es'[i].(prevGroup := 0) == es[i].(prevGroup := 0)
  }

  lemma {:induction false} OnlyPrevGroup(es: seq<TxEntry>, cur: nat, prev: nat, next: nat)
    requires cur < |es| && prev < |es| && next < |es|
    ensures var es' := SwappedEntries(es, cur, prev, next); PrevGroupOnly(es, es') && |es'| == |es| && es'[0].feerate == es[0].feerate
  {
  }

  lemma {:induction false} AllPrevGroup(h: Graph, es: seq<TxEntry>, es': seq<TxEntry>, gs: seq<seq<nat>>)
    requires AllLinks(h, es, gs) && PrevGroupOnly(es, es')
    ensures AllLinks(h, es', gs)
  {
    forall k | 0 <= k < |gs| ensures GroupLinks(h, es', gs[k]) {
      assert SameGroup(es, es', gs[k]);
      GroupFrame(h, es, es', gs[k]);
    }
  }

  lemma {:induction false} SwapChain(h: Graph, es: seq<TxEntry>, a: seq<seq<nat>>, p: seq<nat>, c: seq<nat>, b: seq<seq<nat>>)
    requires Tail(c) < |es| && Tail(p) < |es| && NextTail(b) < |es| && c != [] && p != []
    requires AllLinks(h, es, a) && AllLinks(h, es, b) && ChainOk(es, 0, Around(a, p, c, b)) && Distinct(Flatten(a) + p + c + Flatten(b))
    requires es[0].prevGroup == LastTail(0, Around(a, p, c, b))
    ensures var es' := SwappedEntries(es, Tail(c), Tail(p), NextTail(b));
            ChainOk(es', 0, Around(a, c, p, b)) && es'[0].prevGroup == LastTail(0, Around(a, c, p, b))
  {
    hide *;
    var es' := SwappedEntries(es, Tail(c), Tail(p), NextTail(b));
    SwapDistinct(h, es, a, p, c, b);
    AroundChain(es, a, p, c, b);
    AroundChain(es', a, c, p, b);
    SwappedAt(es, Tail(c), Tail(p), NextTail(b));
    TailsElsewhere(h, es, a, {Tail(c), Tail(p), NextTail(b)});
    ChainElsewhere(es, es', 0, a, {Tail(c), Tail(p), NextTail(b)});
    SwapBackChain(h, es, es', p, c, b);
    SwapLastTail(a, p, c, b);
  }

  lemma {:induction false} SwapBackChain(h: Graph, es: seq<TxEntry>, es': seq<TxEntry>, p: seq<nat>, c: seq<nat>, b: seq<seq<nat>>)
    requires NextTail(b) < |es| && AllLinks(h, es, b) && ChainOk(es, Tail(c), b)
    requires b != [] ==> forall t :: t in Flatten(b[1..]) ==> t + 1 !in {Tail(c), Tail(p), NextTail(b)}
    requires |es'| == |es| && Elsewhere(es, es', {Tail(c), Tail(p), NextTail(b)}) && es'[NextTail(b)].prevGroup == Tail(p)
    ensures ChainOk(es', Tail(p), b)
  {
    if b != [] {
      var rest := b[1..];
      assert b == [b[0]] + rest;
      AllLinksConcat(h, es, [b[0]], rest);
      ChainConcat(es, Tail(c), [b[0]], rest);
      TailsElsewhere(h, es, rest, {Tail(c), Tail(p), NextTail(b)});
      ChainElsewhere(es, es', Tail(b[0]), rest, {Tail(c), Tail(p), NextTail(b)});
    } else {
      hide AllLinks;
    }
  }

  lemma {:induction false} SwapLastTail(a: seq<seq<nat>>, p: seq<nat>, c: seq<nat>, b: seq<seq<nat>>)
    ensures LastTail(0, Around(a, p, c, b)) == if b == [] then Tail(c) else Tail(b[|b| - 1])
    ensures LastTail(0, Around(a, c, p, b)) == if b == [] then Tail(p) else Tail(b[|b| - 1])
    ensures b == [] ==> NextTail(b) == 0
    ensures b != [] ==> NextTail(b) == Tail(b[0])
  {
  }

  ghost predicate Elsewhere(es: seq<TxEntry>, es': seq<TxEntry>, touched: set<nat>) {
    |es'| == |es| && forall i :: 0 <= i < |es| && i !in touched ==> es'[i].prevGroup == es[i].prevGroup
  }

  lemma {:induction false} ChainElsewhere(es: seq<TxEntry>, es': seq<TxEntry>, prev: nat, gs: seq<seq<nat>>, touched: set<nat>)
    requires ChainOk(es, prev, gs) && Elsewhere(es, es', touched) && TailsAvoid(gs, touched)
    ensures ChainOk(es', prev, gs)
  {
    ChainFrame(es, es', prev, gs);
  }

  lemma {:induction false} SwappedAt(es: seq<TxEntry>, cur: nat, prev: nat, next: nat)
    requires cur < |es| && prev < |es| && next < |es| && cur != prev && next != cur && next != prev && cur > 0 && prev > 0
    ensures var es' := SwappedEntries(es, cur, prev, next);
            && |es'| == |es| && Elsewhere(es, es', {cur, prev, next})
            && es'[cur].prevGroup == es[prev].prevGroup && es'[prev].prevGroup == cur && es'[next].prevGroup == prev
            && (next > 0 ==> es'[0].prevGroup == es[0].prevGroup)
  {
  }

  /** No group of gs ends at one of the given indices. */
  ghost predicate TailsAvoid(gs: seq<seq<nat>>, touched: set<nat>) {
    forall k :: 0 <= k < |gs| ==> Tail(gs[k]) !in touched
  }

  lemma {:induction false} TailsElsewhere(h: Graph, es: seq<TxEntry>, gs: seq<seq<nat>>, touched: set<nat>)
    requires AllLinks(h, es, gs) && forall t :: t in Flatten(gs) ==> t + 1 !in touched
    ensures TailsAvoid(gs, touched)
  {
    forall k | 0 <= k < |gs| ensures Tail(gs[k]) !in touched {
      assert GroupLinks(h, es, gs[k]);
      TailIn(gs, k);
    }
  }

  lemma {:induction false} SwapDistinct(h: Graph, es: seq<TxEntry>, a: seq<seq<nat>>, p: seq<nat>, c: seq<nat>, b: seq<seq<nat>>)
    requires c != [] && p != [] && AllLinks(h, es, b) && Distinct(Flatten(a) + p + c + Flatten(b))
    ensures Tail(c) != Tail(p) && Tail(c) > 0 && Tail(p) > 0 && NextTail(b) != Tail(c) && NextTail(b) != Tail(p)
    ensures forall t :: t in Flatten(a) ==> t + 1 !in {Tail(c), Tail(p), NextTail(b)}
    ensures b != [] ==> NextTail(b) > 0 && forall t :: t in Flatten(b[1..]) ==> t + 1 !in {Tail(c), Tail(p), NextTail(b)}
  {
    var fa, fb := Flatten(a), Flatten(b);
    Apartness(fa, p, c, fb);
    var tc, tp := c[|c| - 1], p[|p| - 1];
    assert tc in c && tp in p;
    DistinctConcat(fa + p + c, fb);
    if b != [] {
      assert GroupLinks(h, es, b[0]);
      var d := b[0];
      var td := d[|d| - 1];
      DistinctConcat(d, Flatten(b[1..]));
      assert td in SetOf(d);
      assert td in SetOf(fb) by { SetOfConcat(d, Flatten(b[1..])); }
      SetOfConcat(fa + p, c);
      SetOfConcat(fa, p);
      forall t | t in fa ensures t != td { assert t in SetOf(fa); }
      forall t | t in Flatten(b[1..]) ensures t != td && t != tc && t != tp {
        assert t in SetOf(Flatten(b[1..]));
        assert t in fb;
      }
    }
  }

  // ---------- one pass ----------

  /** The graph a pass works on: reversed, with negated fees, in the backward pass. */
  ghost function View(g: Graph, rev: bool): Graph { if rev then Dual(g) else g }

  /** Where the current group c stands: links of front + [c] + back, which still settles into
      `goal`. */
  ghost predicate Settling(h: Graph, es: seq<TxEntry>, front: seq<seq<nat>>, c: seq<nat>, back: seq<seq<nat>>, goal: seq<seq<nat>>,
                           cur: nat, prev: nat, next: nat) {
    && Links(h, es, front + [c] + back) && Settle(h, front, c) + back == goal
    && c != [] && cur == Tail(c) && prev == LastTail(0, front) && next == NextTail(back)
  }

  lemma {:induction false} GroupTail(h: Graph, es: seq<TxEntry>, c: seq<nat>)
    requires GroupLinks(h, es, c)
    ensures 0 < Tail(c) < |es| && es[Tail(c)].firstTx < |es|
    ensures var t := es[Tail(c)]; t.feerate == h.SeqRate(c) && t.deps == AncestorsOf(h, SetOf(c)) && t.group == SetOf(c)
  {
  }

  lemma {:induction false} SettlingFacts(h: Graph, es: seq<TxEntry>, front: seq<seq<nat>>, c: seq<nat>, back: seq<seq<nat>>, goal: seq<seq<nat>>,
                                         cur: nat, prev: nat, next: nat)
    requires Settling(h, es, front, c, back, goal, cur, prev, next)
    ensures 0 < cur < |es| && prev < |es| && next < |es| && es[cur].firstTx < |es|
    ensures es[cur].feerate == h.SeqRate(c) && es[cur].deps == AncestorsOf(h, SetOf(c))
    ensures front == [] ==> es[prev].feerate == EMPTY
    ensures front != [] ==> var p := front[|front| - 1];
              es[prev].feerate == h.SeqRate(p) && es[prev].group == SetOf(p) && prev == Tail(p) && prev != cur && prev != next
  {
    hide *;
    SettlingUnpack(h, es, front, c, back, goal, cur, prev, next);
    var gs := front + [c] + back;
    LinksUnpack(h, es, gs);
    AllLinksConcat(h, es, front + [c], back);
    AllLinksConcat(h, es, front, [c]);
    AllLinksOne(h, es, c);
    GroupTail(h, es, c);
    NextRange(h, es, back);
    if front != [] {
      var n := |front| - 1;
      AllLinksAt(h, es, front, n);
      GroupTail(h, es, front[n]);
      var a, p := front[..n], front[n];
      assert front == a + [p];
      AroundIs(a, p, c, back);
      AroundFlat(a, p, c, back);
      GroupRange(h, es, p);
      SwapDistinct(h, es, a, p, c, back);
    } else {
      LastTailNone(front);
    }
  }

  lemma {:induction false} LastTailNone(gs: seq<seq<nat>>)
    ensures gs == [] ==> LastTail(0, gs) == 0
  {
  }

  lemma {:induction false} SettlingUnpack(h: Graph, es: seq<TxEntry>, front: seq<seq<nat>>, c: seq<nat>, back: seq<seq<nat>>, goal: seq<seq<nat>>,
                                          cur: nat, prev: nat, next: nat)
    requires Settling(h, es, front, c, back, goal, cur, prev, next)
    ensures Links(h, es, front + [c] + back) && Settle(h, front, c) + back == goal
    ensures c != [] && cur == Tail(c) && prev == LastTail(0, front) && next == NextTail(back)
    ensures front != [] ==> prev == Tail(front[|front| - 1])
  {
    hide Settle, Links;
  }

  lemma {:induction false} SettlingPack(h: Graph, es: seq<TxEntry>, front: seq<seq<nat>>, c: seq<nat>, back: seq<seq<nat>>, goal: seq<seq<nat>>,
                                        cur: nat, prev: nat, next: nat)
    requires Links(h, es, front + [c] + back) && Settle(h, front, c) + back == goal
    requires c != [] && cur == Tail(c) && prev == LastTail(0, front) && next == NextTail(back)
    ensures Settling(h, es, front, c, back, goal, cur, prev, next)
  {
    hide Settle, Links;
  }

  lemma {:induction false} SettleStep(h: Graph, a: seq<seq<nat>>, p: seq<nat>, c: seq<nat>)
    requires h.SeqRate(c).Higher(h.SeqRate(p))
    ensures Settle(h, a + [p], c) == if DependsOn(h, c, p) then Settle(h, a, p + c) else Settle(h, a, c) + [p]
  {
    hide DependsOn, Graph.SeqRate, FeeFrac.Higher;
    var front := a + [p];
    assert front[..|front| - 1] == a && front[|front| - 1] == p;
  }

  lemma {:induction false} TailOf(p: seq<nat>, c: seq<nat>, back: seq<seq<nat>>)
    requires c != []
    ensures Tail(p + c) == Tail(c) && NextTail([p] + back) == Tail(p)
  {
  }

  /** What the group before p is, from p's own entry. */
  lemma {:induction false} PrevOfPrev(h: Graph, es: seq<TxEntry>, a: seq<seq<nat>>, p: seq<nat>, c: seq<nat>, b: seq<seq<nat>>)
    requires Links(h, es, Around(a, p, c, b))
    ensures Tail(p) < |es| && es[Tail(p)].prevGroup == LastTail(0, a)
  {
    hide *;
    LinksUnpack(h, es, Around(a, p, c, b));
    AroundChain(es, a, p, c, b);
  }

  lemma {:induction false} SettlingMerge(h: Graph, es: seq<TxEntry>, front: seq<seq<nat>>, c: seq<nat>, back: seq<seq<nat>>, goal: seq<seq<nat>>,
                                         cur: nat, prev: nat, next: nat)
    requires Settling(h, es, front, c, back, goal, cur, prev, next) && front != []
    requires h.SeqRate(c).Higher(h.SeqRate(front[|front| - 1])) && DependsOn(h, c, front[|front| - 1])
    requires cur < |es| && prev < |es| && es[cur].firstTx < |es|
    ensures var n := |front| - 1;
            Settling(h, MergedEntries(es, cur, prev, es[cur].firstTx), front[..n], front[n] + c, back, goal, cur, es[prev].prevGroup, next)
  {
    hide *;
    var n := |front| - 1;
    var a, p := front[..n], front[n];
    assert front == a + [p];
    SettlingUnpack(h, es, front, c, back, goal, cur, prev, next);
    AroundIs(a, p, c, back);
    SettleStep(h, a, p, c);
    MergeLinks(h, es, a, p, c, back);
    PrevOfPrev(h, es, a, p, c, back);
    TailOf(p, c, back);
    SettlingPack(h, MergedEntries(es, cur, prev, es[cur].firstTx), a, p + c, back, goal, cur, es[prev].prevGroup, next);
  }

  lemma {:induction false} SettlingSwap(h: Graph, es: seq<TxEntry>, front: seq<seq<nat>>, c: seq<nat>, back: seq<seq<nat>>, goal: seq<seq<nat>>,
                                        cur: nat, prev: nat, next: nat)
    requires Settling(h, es, front, c, back, goal, cur, prev, next) && front != []
    requires h.SeqRate(c).Higher(h.SeqRate(front[|front| - 1])) && !DependsOn(h, c, front[|front| - 1])
    requires cur < |es| && prev < |es| && next < |es|
    ensures var n := |front| - 1;
            Settling(h, SwappedEntries(es, cur, prev, next), front[..n], c, [front[n]] + back, goal, cur, es[prev].prevGroup, prev)
  {
    hide *;
    var n := |front| - 1;
    var a, p := front[..n], front[n];
    assert front == a + [p];
    SettlingUnpack(h, es, front, c, back, goal, cur, prev, next);
    AroundIs(a, p, c, back);
    AroundIs(a, c, p, back);
    SettleStep(h, a, p, c);
    SwapLinks(h, es, a, p, c, back);
    PrevOfPrev(h, es, a, p, c, back);
    TailOf(p, c, back);
    assert Settle(h, a, c) + [p] + back == Settle(h, a, c) + ([p] + back);
    assert a + [c] + ([p] + back) == a + [c] + [p] + back;
    SettlingPack(h, SwappedEntries(es, cur, prev, next), a, c, [p] + back, goal, cur, es[prev].prevGroup, prev);
  }

  /** Insert transaction idx as a group of its own at the back, and run the merge/swap cycle. */
  method SettleTx(g: Graph, rev: bool, entries0: seq<TxEntry>, idx: nat, ghost gs: seq<seq<nat>>) returns (entries: seq<TxEntry>)
    requires Links(View(g, rev), entries0, gs) && idx !in Flatten(gs) && idx + 1 < |entries0|
    ensures Links(View(g, rev), entries, Settle(View(g, rev), gs, [idx])) && |entries| == |entries0|
  {
    hide *;
    ghost var h := View(g, rev);
    var cur := idx + 1;
    entries := NewEntry(g, rev, entries0, idx, gs);
    var next: nat, prev: nat := 0, entries[cur].prevGroup;
    ghost var front, c, back := gs, [idx], [];
    ghost var goal := Settle(h, gs, [idx]);
    SettlingStart(h, entries, gs, idx, prev);
    SettlingFacts(h, entries, front, c, back, goal, cur, prev, next);
    while entries[cur].feerate.Higher(entries[prev].feerate)
      invariant |entries| == |entries0| && 0 < cur < |entries| && prev < |entries|
      invariant Settling(h, entries, front, c, back, goal, cur, prev, next)
      decreases |front|
    {
      SettlingFacts(h, entries, front, c, back, goal, cur, prev, next);
      NotAboveEmpty(entries[cur].feerate, entries[prev].feerate);
      ghost var p := front[|front| - 1];
      DependsMeans(h, c, p);
      var preprev := entries[prev].prevGroup;
      if entries[cur].deps * entries[prev].group != {} {
        SettlingMerge(h, entries, front, c, back, goal, cur, prev, next);
        entries := Merge(entries, cur, prev);
        prev := preprev;
        front, c := front[..|front| - 1], p + c;
      } else {
        SettlingSwap(h, entries, front, c, back, goal, cur, prev, next);
        entries := Swap(entries, cur, prev, next);
        next, prev := prev, preprev;
        front, back := front[..|front| - 1], [p] + back;
      }
      SettlingFacts(h, entries, front, c, back, goal, cur, prev, next);
    }
    SettlingEnd(h, entries, front, c, back, goal, cur, prev, next);
  }

  lemma {:induction false} NotAboveEmpty(a: FeeFrac, b: FeeFrac)
    ensures b == EMPTY ==> !a.Higher(b)
  {
  }

  lemma {:induction false} DependsMeans(h: Graph, c: seq<nat>, p: seq<nat>)
    ensures DependsOn(h, c, p) <==> AncestorsOf(h, SetOf(c)) * SetOf(p) != {}
  {
  }

  lemma {:induction false} SettlingStart(h: Graph, es: seq<TxEntry>, gs: seq<seq<nat>>, idx: nat, prev: nat)
    requires Links(h, es, gs + [[idx]]) && prev == LastTail(0, gs)
    ensures Settling(h, es, gs, [idx], [], Settle(h, gs, [idx]), idx + 1, prev, 0)
  {
    assert gs + [[idx]] + [] == gs + [[idx]];
    assert Settle(h, gs, [idx]) + [] == Settle(h, gs, [idx]);
  }

  lemma {:induction false} SettlingEnd(h: Graph, es: seq<TxEntry>, front: seq<seq<nat>>, c: seq<nat>, back: seq<seq<nat>>, goal: seq<seq<nat>>,
                                       cur: nat, prev: nat, next: nat)
    requires Settling(h, es, front, c, back, goal, cur, prev, next)
    requires cur < |es| && prev < |es| && !es[cur].feerate.Higher(es[prev].feerate)
    ensures Links(h, es, goal)
  {
    SettlingFacts(h, es, front, c, back, goal, cur, prev, next);
    hide AllLinks, GroupLinks, Flatten, Links;
    assert Settle(h, front, c) == front + [c];
  }

  lemma {:induction false} ViewAt(g: Graph, rev: bool, i: nat)
    ensures View(g, rev).Anc(i) == if rev then g.Desc(i) else g.Anc(i)
    ensures View(g, rev).Rate(i) == if rev then FeeFrac(-g.Rate(i).fee, g.Rate(i).size) else g.Rate(i)
  {
    hide Graph.Anc, Graph.Desc, Graph.Rate, Dual, Graph.Valid, Graph.Acyclic, Graph.Sized;
    DualValid(g);
  }

  method NewEntry(g: Graph, rev: bool, es: seq<TxEntry>, idx: nat, ghost gs: seq<seq<nat>>) returns (r: seq<TxEntry>)
    requires Links(View(g, rev), es, gs) && idx !in Flatten(gs) && idx + 1 < |es|
    ensures |r| == |es| && Links(View(g, rev), r, gs + [[idx]]) && r[idx + 1].prevGroup == LastTail(0, gs)
  {
    hide *;
    r := InsertGroup(g, rev, es, idx);
    ViewAt(g, rev, idx);
    LinksUnpack(View(g, rev), es, gs);
    AppendLinks(View(g, rev), es, gs, idx, r);
  }

  method InsertGroup(g: Graph, rev: bool, es: seq<TxEntry>, idx: nat) returns (r: seq<TxEntry>)
    requires idx + 1 < |es|
    ensures OnlyTouched(es, r, {0, idx + 1}) && |r| == |es| && r[0] == es[0].(prevGroup := idx + 1)
    ensures r[idx + 1] == TxEntry(0, idx + 1, es[0].prevGroup, {idx}, if rev then g.Desc(idx) else g.Anc(idx),
                                  if rev then FeeFrac(-g.Rate(idx).fee, g.Rate(idx).size) else g.Rate(idx))
  {
    var cur := idx + 1;
    r := es;
    r := r[cur := r[cur].(group := {idx})];
    r := r[cur := r[cur].(deps := if rev then g.Desc(idx) else g.Anc(idx))];
    r := r[cur := r[cur].(feerate := g.Rate(idx))];
    if rev { r := r[cur := r[cur].(feerate := FeeFrac(-r[cur].feerate.fee, r[cur].feerate.size))]; }
    r := r[cur := r[cur].(prevTx := 0)];
    r := r[cur := r[cur].(firstTx := cur)];
    r := r[cur := r[cur].(prevGroup := r[0].prevGroup)];
    r := r[0 := r[0].(prevGroup := cur)];
  }

  method Merge(es: seq<TxEntry>, cur: nat, prev: nat) returns (r: seq<TxEntry>)
    requires cur < |es| && prev < |es| && es[cur].firstTx < |es| && cur != prev
    ensures r == MergedEntries(es, cur, prev, es[cur].firstTx) && |r| == |es|
  {
    r := es;
    r := r[cur := r[cur].(group := r[cur].group + r[prev].group)];
    r := r[cur := r[cur].(deps := r[cur].deps + r[prev].deps)];
    r := r[cur := r[cur].(feerate := r[cur].feerate.Plus(r[prev].feerate))];
    r := r[r[cur].firstTx := r[r[cur].firstTx].(prevTx := prev)];
    r := r[cur := r[cur].(firstTx := r[prev].firstTx)];
    r := r[cur := r[cur].(prevGroup := r[prev].prevGroup)];
  }

  method Swap(es: seq<TxEntry>, cur: nat, prev: nat, next: nat) returns (r: seq<TxEntry>)
    requires cur < |es| && prev < |es| && next < |es| && next != prev
    ensures r == SwappedEntries(es, cur, prev, next) && |r| == |es|
  {
    r := es;
    var preprev := r[prev].prevGroup;
    r := r[next := r[next].(prevGroup := prev)];
    r := r[prev := r[prev].(prevGroup := cur)];
    r := r[cur := r[cur].(prevGroup := preprev)];
  }

  // ---------- the two loops of a pass ----------

  /** The order in which a pass visits the linearization. */
  ghost function Visited(l: seq<nat>, rev: bool): (r: seq<nat>)
    ensures |r| == |l|
  {
    if rev then Reverse(l) else l
  }

  lemma {:induction false} PassSnoc(h: Graph, l: seq<nat>, i: nat)
    requires i < |l|
    ensures Pass(h, l[..i + 1]) == Settle(h, Pass(h, l[..i]), [l[i]])
  {
    hide Settle;
    var m := l[..i + 1];
    assert m[..|m| - 1] == l[..i] && m[|m| - 1] == l[i];
  }

  lemma {:induction false} SettleSet(h: Graph, front: seq<seq<nat>>, c: seq<nat>)
    ensures SetOf(Flatten(Settle(h, front, c))) == SetOf(Flatten(front)) + SetOf(c)
    decreases |front|
  {
    if front == [] || !h.SeqRate(c).Higher(h.SeqRate(front[|front| - 1])) {
      FlattenSnoc(front, c);
      SetOfConcat(Flatten(front), c);
    } else {
      var n := |front| - 1;
      var a, p := front[..n], front[n];
      assert front == a + [p];
      FlattenSnoc(a, p);
      SetOfConcat(Flatten(a), p);
      if DependsOn(h, c, p) {
        SettleSet(h, a, p + c);
        SetOfConcat(p, c);
      } else {
        SettleSet(h, a, c);
        FlattenSnoc(Settle(h, a, c), p);
        SetOfConcat(Flatten(Settle(h, a, c)), p);
      }
    }
  }

  lemma {:induction false} PassSet(h: Graph, l: seq<nat>)
    ensures SetOf(Flatten(Pass(h, l))) == SetOf(l)
  {
    if l != [] {
      var n := |l| - 1;
      var c := [l[n]];
      assert l == l[..n] + c;
      PassSet(h, l[..n]);
      SettleSet(h, Pass(h, l[..n]), c);
      SetOfConcat(l[..n], c);
    }
  }

  lemma {:induction false} NotYetPassed(h: Graph, l: seq<nat>, i: nat)
    requires Distinct(l) && i < |l|
    ensures l[i] !in Flatten(Pass(h, l[..i]))
  {
    hide Pass, Flatten;
    PassSet(h, l[..i]);
    assert l[i] !in SetOf(l[..i]);
  }

  lemma {:induction false} NoLinks(h: Graph, es: seq<TxEntry>, l: seq<nat>)
    requires es != [] && es[0].feerate == EMPTY && es[0].prevGroup == 0
    ensures Links(h, es, Pass(h, l[..0]))
  {
  }

  lemma {:induction false} VisitedDistinct(l: seq<nat>, rev: bool)
    requires Distinct(l)
    ensures Distinct(Visited(l, rev)) && SetOf(Visited(l, rev)) == SetOf(l)
  {
    hide Reverse, Distinct;
    ReverseSet(l);
  }

  lemma {:induction false} VisitedAt(l: seq<nat>, rev: bool, i: nat)
    requires i < |l|
    ensures Visited(l, rev)[i] == l[if rev then |l| - 1 - i else i]
  {
  }

  /** First half of a pass: group the transactions, in the pass's own order. */
  method BuildGroups(g: Graph, rev: bool, linearization: seq<nat>, entries0: seq<TxEntry>) returns (entries: seq<TxEntry>)
    requires entries0 != [] && entries0[0].feerate == EMPTY
    requires Distinct(linearization) && forall i :: 0 <= i < |linearization| ==> linearization[i] + 1 < |entries0|
    ensures Links(View(g, rev), entries, Pass(View(g, rev), Visited(linearization, rev))) && |entries| == |entries0|
  {
    hide *;
    ghost var h, l := View(g, rev), Visited(linearization, rev);
    entries := entries0[0 := entries0[0].(prevGroup := 0)];
    VisitedDistinct(linearization, rev);
    NoLinks(h, entries, l);
    for i := 0 to |linearization|
      invariant |entries| == |entries0| && Links(h, entries, Pass(h, l[..i]))
    {
      VisitedAt(linearization, rev, i);
      var idx := linearization[if rev then |linearization| - 1 - i else i];
      NotYetPassed(h, l, i);
      PassSnoc(h, l, i);
      entries := SettleTx(g, rev, entries, idx, Pass(h, l[..i]));
    }
    assert l[..|linearization|] == l;
  }

  /** The last `done` transactions of f are in place: at the back of a, or reversed at its front. */
  ghost predicate Written(rev: bool, a: seq<nat>, f: seq<nat>, done: nat) {
    |a| == |f| && done <= |f| && forall j :: |f| - done <= j < |f| ==> a[if rev then |f| - 1 - j else j] == f[j]
  }

  lemma {:induction false} WriteOne(rev: bool, a: seq<nat>, a': seq<nat>, f: seq<nat>, done: nat)
    requires Written(rev, a, f, done) && done < |f|
    requires a' == a[(if rev then done else |a| - 1 - done) := f[|f| - 1 - done]]
    ensures Written(rev, a', f, done + 1)
  {
  }

  /** Index of the last of the first m transactions of a group, 0 when there is none. */
  ghost function Index(c: seq<nat>, m: nat): nat
    requires m <= |c|
  {
    if m == 0 then 0 else c[m - 1] + 1
  }

  lemma {:induction false} IndexStep(h: Graph, es: seq<TxEntry>, c: seq<nat>, m: nat)
    requires GroupLinks(h, es, c) && m <= |c|
    ensures Index(c, m) < |es| && (Index(c, m) != 0 <==> m > 0)
    ensures m > 0 ==> es[Index(c, m)].prevTx == Index(c, m - 1) && Index(c, m) - 1 == c[m - 1]
    ensures Index(c, |c|) == Tail(c)
  {
    hide SetOf, AncestorsOf, Graph.SeqRate;
  }

  /** Write the transactions of one group, from its back to its front. */
  method WriteGroup(rev: bool, entries: seq<TxEntry>, linearization: array<nat>, curGroup: nat, done0: nat,
                    ghost h: Graph, ghost f: seq<nat>, ghost c: seq<nat>, ghost before: nat)
    returns (done: nat)
    requires GroupLinks(h, entries, c) && curGroup == Tail(c)
    requires before + |c| <= |f| && f[before..before + |c|] == c && done0 == |f| - before - |c|
    requires Written(rev, linearization[..], f, done0)
    modifies linearization
    ensures done == |f| - before && Written(rev, linearization[..], f, done)
  {
    hide *;
    done := done0;
    var curTx := curGroup;
    ghost var m: nat := |c|;
    IndexStep(h, entries, c, m);
    WrittenLength(rev, linearization[..], f, done);
    while curTx != 0
      invariant m <= |c| && curTx == Index(c, m) && done == |f| - before - m && linearization.Length == |f|
      invariant Written(rev, linearization[..], f, done)
      decreases m
    {
      IndexStep(h, entries, c, m);
      assert f[|f| - 1 - done] == f[before..before + |c|][m - 1];
      ghost var a := linearization[..];
      if rev {
        linearization[done] := curTx - 1;
      } else {
        linearization[linearization.Length - 1 - done] := curTx - 1;
      }
      assert linearization[..] == a[(if rev then done else |a| - 1 - done) := curTx - 1];
      WriteOne(rev, a, linearization[..], f, done);
      done := done + 1;
      curTx := entries[curTx].prevTx;
      m := m - 1;
    }
    IndexStep(h, entries, c, m);
  }

  lemma {:induction false} WrittenLength(rev: bool, a: seq<nat>, f: seq<nat>, done: nat)
    requires Written(rev, a, f, done)
    ensures |a| == |f|
  {
  }

  lemma {:induction false} GroupPlace(gs: seq<seq<nat>>, k: nat)
    requires k < |gs|
    ensures var f, before, c := Flatten(gs), |Flatten(gs[..k])|, gs[k];
            && before + |c| <= |f| && f[before..before + |c|] == c && |Flatten(gs[..k + 1])| == before + |c|
  {
    FlattenMember(gs, k);
    assert gs[..k + 1] == gs[..k] + [gs[k]];
    FlattenSnoc(gs[..k], gs[k]);
  }

  /** Groups k and before it, from the tail of the last one. */
  lemma {:induction false} GroupBefore(h: Graph, es: seq<TxEntry>, gs: seq<seq<nat>>, k: nat)
    requires Links(h, es, gs) && k < |gs|
    ensures GroupLinks(h, es, gs[k]) && LastTail(0, gs[..k + 1]) == Tail(gs[k])
    ensures 0 < Tail(gs[k]) < |es| && es[Tail(gs[k])].prevGroup == LastTail(0, gs[..k])
  {
    hide *;
    LinksUnpack(h, es, gs);
    AllLinksAt(h, es, gs, k);
    GroupRange(h, es, gs[k]);
    var a, c := gs[..k], gs[k];
    assert gs[..k + 1] == a + [c] && gs == a + [c] + gs[k + 1..];
    LastTailSnoc(a, c);
    ChainConcat(es, 0, a + [c], gs[k + 1..]);
    ChainConcat(es, 0, a, [c]);
    ChainOne(es, LastTail(0, a), c);
  }

  lemma {:induction false} WrittenNone(rev: bool, a: seq<nat>, gs: seq<seq<nat>>)
    requires |a| == |Flatten(gs)|
    ensures Written(rev, a, Flatten(gs), 0) && gs[..|gs|] == gs && |Flatten(gs[..0])| == 0
  {
    assert gs[..|gs|] == gs;
  }

  lemma {:induction false} WrittenAll(rev: bool, a: seq<nat>, f: seq<nat>)
    requires Written(rev, a, f, |f|)
    ensures a == Visited(f, rev)
  {
    var v := Visited(f, rev);
    forall i | 0 <= i < |f| ensures a[i] == v[i] {
      var j := if rev then |f| - 1 - i else i;
      assert a[if rev then |f| - 1 - j else j] == f[j];
    }
  }

  lemma {:induction false} TailEnd(h: Graph, es: seq<TxEntry>, gs: seq<seq<nat>>, k: nat)
    requires Links(h, es, gs) && k <= |gs|
    ensures LastTail(0, gs[..k]) != 0 <==> k > 0
    ensures LastTail(0, gs[..|gs|]) == es[0].prevGroup && es != []
  {
    hide *;
    LinksUnpack(h, es, gs);
    assert gs[..|gs|] == gs;
    if k > 0 {
      GroupBefore(h, es, gs, k - 1);
    } else {
      LastTailNone(gs[..k]);
    }
  }

  /** Second half of a pass: overwrite the linearization with the groups. */
  method WriteGroups(rev: bool, entries: seq<TxEntry>, linearization: array<nat>, ghost h: Graph, ghost gs: seq<seq<nat>>)
    requires Links(h, entries, gs) && linearization.Length == |Flatten(gs)|
    modifies linearization
    ensures linearization[..] == Visited(Flatten(gs), rev)
  {
    hide *;
    TailEnd(h, entries, gs, |gs|);
    var curGroup := entries[0].prevGroup;
    var done: nat := 0;
    ghost var k: nat, f := |gs|, Flatten(gs);
    WrittenNone(rev, linearization[..], gs);
    while curGroup != 0
      invariant k <= |gs| && curGroup == LastTail(0, gs[..k]) && done == |f| - |Flatten(gs[..k])|
      invariant Written(rev, linearization[..], f, done)
      decreases k
    {
      TailEnd(h, entries, gs, k);
      GroupPlace(gs, k - 1);
      GroupBefore(h, entries, gs, k - 1);
      done := WriteGroup(rev, entries, linearization, curGroup, done, h, f, gs[k - 1], |Flatten(gs[..k - 1])|);
      curGroup := entries[curGroup].prevGroup;
      k := k - 1;
    }
    TailEnd(h, entries, gs, k);
    assert done == linearization.Length;
    WrittenAll(rev, linearization[..], f);
  }

  // ---------- the whole algorithm ----------

  /** One pass: what it makes of the linearization. */
  ghost function Passed(g: Graph, rev: bool, l: seq<nat>): seq<nat> { Visited(Flatten(Pass(View(g, rev), Visited(l, rev))), rev) }

  method RunPass(g: Graph, rev: bool, linearization: array<nat>, entries0: seq<TxEntry>) returns (entries: seq<TxEntry>)
    requires entries0 != [] && entries0[0].feerate == EMPTY
    requires Distinct(linearization[..]) && forall i :: 0 <= i < linearization.Length ==> linearization[i] + 1 < |entries0|
    modifies linearization
    ensures linearization[..] == Passed(g, rev, old(linearization[..]))
    ensures |entries| == |entries0| && entries[0].feerate == EMPTY
  {
    hide *;
    entries := BuildGroups(g, rev, linearization[..], entries0);
    ghost var gs := Pass(View(g, rev), Visited(linearization[..], rev));
    LinksUnpack(View(g, rev), entries, gs);
    PassLength(g, rev, linearization[..], gs);
    PassedIs(g, rev, linearization[..], gs);
    WriteGroups(rev, entries, linearization, View(g, rev), gs);
  }

  lemma {:induction false} PassLength(g: Graph, rev: bool, l: seq<nat>, gs: seq<seq<nat>>)
    requires Distinct(l) && gs == Pass(View(g, rev), Visited(l, rev)) && Distinct(Flatten(gs))
    ensures |Flatten(gs)| == |l|
  {
    hide *;
    VisitedDistinct(l, rev);
    PassSet(View(g, rev), Visited(l, rev));
    DistinctSize(Flatten(gs));
    DistinctSize(l);
  }

  lemma {:induction false} PassedIs(g: Graph, rev: bool, l: seq<nat>, gs: seq<seq<nat>>)
    requires gs == Pass(View(g, rev), Visited(l, rev))
    ensures Passed(g, rev, l) == Visited(Flatten(gs), rev)
  {
    hide Visited, Flatten, Pass, View;
  }

  lemma {:induction false} TwoPasses(g: Graph, l: seq<nat>)
    ensures Passed(g, true, l) == Backward(g, l) && Passed(g, false, Passed(g, true, l)) == Post(g, l)
  {
    hide Reverse, Flatten, Pass, Dual;
  }

  lemma {:induction false} InRange(g: Graph, l: seq<nat>)
    requires g.Cluster() && g.Linearizes(g.used, l)
    ensures Distinct(l) && forall i :: 0 <= i < |l| ==> l[i] < |g.entries|
  {
    forall i | 0 <= i < |l| ensures l[i] < |g.entries| {
      assert l[i] in SetOf(l);
    }
  }

  /** Two passes over the array: a linearization comes out, its diagram is nowhere lower, its chunks
      are connected, and on forests nothing beats it. */
  method PostLinearize(g: Graph, linearization: array<nat>)
    requires g.Cluster() && g.Linearizes(g.used, linearization[..])
    modifies linearization
    ensures linearization[..] == Post(g, old(linearization[..]))
    ensures g.Linearizes(g.used, linearization[..]) && AsGood(g, linearization[..], old(linearization[..]))
    ensures AllConnected(g, Chunkings.Chunks(g, linearization[..]))
    ensures OneChild(g) || OneParent(g) ==> Optimal(g, g.used, linearization[..])
  {
    hide *;
    ghost var l := linearization[..];
    var entries := seq(|g.entries| + 1, _ => TxEntry(0, 0, 0, {}, {}, EMPTY));
    InRange(g, l);
    entries := RunPass(g, true, linearization, entries);
    TwoPasses(g, l);
    BackwardCorrect(g, l);
    InRange(g, linearization[..]);
    entries := RunPass(g, false, linearization, entries);
    PostCorrect(g, l);
    if OneChild(g) || OneParent(g) { PostOptimalOnTrees(g, l); }
  }
}
