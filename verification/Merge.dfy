/** Building a linearization front to back while never falling below an existing one, and
    MergeLinearizations (src/cluster_linearize.h:1297-1337). */
module Merging {
  import opened FeeFracs
  import opened Sets
  import opened Graphs
  import opened Diagrams
  import opened Chunkings
  import opened Improvements
  import DepGraphs

  /** `ret` linearizes everything but `left`, and all of that comes first. */
  ghost predicate Prefix(g: Graph, ret: seq<nat>, left: set<nat>) {
    left <= g.used && g.Closed(g.used, g.used - left) && g.Linearizes(g.used - left, ret)
  }

  /** Completed by what is left of `lin`, the output is at least as good as `lin`. */
  ghost predicate Keeping(g: Graph, lin: seq<nat>, ret: seq<nat>, left: set<nat>) {
    g.Linearizes(g.used, lin) && left <= g.used && AsGood(g, ret + Keep(lin, left), lin)
  }

  lemma {:induction false} PrefixStart(g: Graph)
    ensures Prefix(g, [], g.used)
  {
    var none: seq<nat> := [];
    assert SetOf(none) == {} == g.used - g.used;
  }

  lemma {:induction false} KeepingStart(g: Graph, lin: seq<nat>)
    requires g.Linearizes(g.used, lin)
    ensures Keeping(g, lin, [], g.used)
  {
    KeepProps(lin, g.used);
    assert [] + Keep(lin, g.used) == lin;
  }

  lemma {:induction false} KeepingEnd(g: Graph, lin: seq<nat>, ret: seq<nat>)
    requires Keeping(g, lin, ret, {})
    ensures AsGood(g, ret, lin)
  {
    KeepProps(lin, {});
    assert ret + Keep(lin, {}) == ret;
  }

  lemma {:induction false} PrefixEnd(g: Graph, ret: seq<nat>)
    requires Prefix(g, ret, {})
    ensures g.Linearizes(g.used, ret)
  {
    assert g.used - {} == g.used;
  }

  /** Appending a closed set in topological order extends the linearized part. */
  lemma {:induction false} PrefixStep(g: Graph, ret: seq<nat>, left: set<nat>, front: seq<nat>)
    requires Prefix(g, ret, left) && g.Closed(left, SetOf(front)) && g.Linearizes(SetOf(front), front)
    ensures Prefix(g, ret + front, left - SetOf(front))
  {
    var s, done := SetOf(front), g.used - left;
    assert g.used - (left - s) == done + s;
    SetOfConcat(ret, front);
    DistinctConcat(ret, front);
    forall k | 0 <= k <= |ret + front| ensures g.Closed(done + s, SetOf((ret + front)[..k])) {
      if k <= |ret| {
        assert (ret + front)[..k] == ret[..k];
        assert g.Closed(done, SetOf(ret[..k]));
      } else {
        var m := k - |ret|;
        assert (ret + front)[..k] == ret + front[..m];
        SetOfConcat(ret, front[..m]);
        assert g.Closed(s, SetOf(front[..m]));
      }
    }
  }

  /** Moving `front` ahead of what is left keeps the output at least as good. */
  lemma {:induction false} KeepingStep(g: Graph, lin: seq<nat>, ret: seq<nat>, left: set<nat>, front: seq<nat>, b: FeeFrac)
    requires g.Sized() && Keeping(g, lin, ret, left)
    requires Distinct(front) && SetOf(front) <= left && Lifts(g, Chunks(g, Keep(lin, left)), SetOf(front), b)
    ensures Keeping(g, lin, ret + front, left - SetOf(front))
  {
    var s := SetOf(front);
    var l := Keep(lin, left);
    KeepProps(lin, left);
    assert SetOf(l) == left;
    hide Keep, Chunks, AsGood, Lifts, Distinct, Graph.Sized;
    ChunksAreChunking(g, l);
    hide IsChunking, Graph.Linearizes, SetOf;
    FrontImproves(g, l, Chunks(g, l), front, b);
    var rest := Keep(l, left - s);
    KeepKeep(lin, left, left - s);
    assert left * (left - s) == left - s;
    AsGoodContext(g, ret, front + rest, l, []);
    assert ret + (front + rest) + [] == ret + front + rest;
    assert ret + l + [] == ret + l;
    AsGoodTrans(g, ret + front + rest, ret + l, lin);
  }

  /** The set MergeLinearizations outputs: the better first chunk, intersected with the chunk
      prefixes of the other list, may be moved to the front of both. */
  lemma {:induction false} MergedSetLifts(g: Graph, left: set<nat>, own: seq<nat>, other: seq<nat>, s: set<nat>)
    requires g.Cluster() && left <= g.used && left != {}
    requires g.Linearizes(left, own) && g.Linearizes(left, other)
    requires Chunks(g, own) != [] && Chunks(g, other) != []
    requires !g.SeqRate(Chunks(g, other)[0]).Higher(g.SeqRate(Chunks(g, own)[0]))
    requires Intersection(g, Chunks(g, other), SetOf(Chunks(g, own)[0]), s)
    ensures s != {} && s <= left && g.Closed(left, s)
    ensures Lifts(g, Chunks(g, own), s, g.SeqRate(Chunks(g, own)[0]))
    ensures Lifts(g, Chunks(g, other), s, g.SeqRate(Chunks(g, own)[0]))
  {
    ChunksAreChunking(g, own);
    ChunksAreChunking(g, other);
    var cs, ds := Chunks(g, own), Chunks(g, other);
    var t := SetOf(cs[0]);
    FirstChunkSet(g, left, own, cs);
    IntersectionLifts(g, ds, t, s);
    var j :| 0 <= j <= |ds| && IntersectionAt(g, ds, t, s, j);
    ChunkPrefixClosed(g, left, other, ds, j);
    ClosedUnion(g, left, t, PrefixSet(ds, j));
    FirstChunkPartLifts(g, cs, s);
  }

  lemma {:induction false} FirstChunkSet(g: Graph, left: set<nat>, l: seq<nat>, cs: seq<seq<nat>>)
    requires g.Linearizes(left, l) && IsChunking(g, l, cs) && cs != []
    ensures var t := SetOf(cs[0]); t != {} && g.Closed(left, t) && g.SetRate(t) == g.SeqRate(cs[0])
  {
    var c := cs[0];
    ChunkPrefixClosed(g, left, l, cs, 1);
    assert cs[..1] == [c];
    FlattenOne(c);
    DistinctPrefix(c, l);
    SeqRateSet(g, c);
    assert c[0] in SetOf(c);
  }

  /** A chunking of what is left of `lin`. */
  ghost predicate Tracks(c: LinearizationChunking, g: Graph, lin: seq<nat>, left: set<nat>)
    reads c
  {
    c.Valid() && c.g == g && c.todo == left && c.Rest() == Keep(lin, left)
  }

  lemma {:induction false} TracksChunks(c: LinearizationChunking, g: Graph, lin: seq<nat>, left: set<nat>)
    requires Tracks(c, g, lin, left) && g.Linearizes(g.used, lin) && left <= g.used
    ensures g.Linearizes(left, Keep(lin, left))
    ensures c.NumChunksLeft() == |Chunks(g, Keep(lin, left))|
    ensures c.NumChunksLeft() == 0 <==> left == {}
    ensures c.NumChunksLeft() > 0 ==>
      c.GetChunk(0) == SetInfo(SetOf(Chunks(g, Keep(lin, left))[0]), g.SeqRate(Chunks(g, Keep(lin, left))[0]))
  {
    KeepLinearizes(g, g.used, lin, left);
    KeepProps(lin, left);
    var l := Keep(lin, left);
    assert c.chunks[c.chunksSkip..] == Infos(g, Chunks(g, l));
    if left != {} {
      var x :| x in left;
      assert x in SetOf(l);
      ChunksRest(g, l);
    }
  }

  method MarkTracked(c: LinearizationChunking, g: Graph, ghost lin: seq<nat>, ghost left: set<nat>, s: set<nat>)
    requires Tracks(c, g, lin, left) && s != {} && s <= left
    modifies c
    ensures Tracks(c, g, lin, left - s)
  {
    c.MarkDone(s);
    KeepKeep(lin, left, left - s);
    assert left * (left - s) == left - s;
  }

  lemma {:induction false} OutputStep(g: Graph, lin: seq<nat>, ret: seq<nat>, left: set<nat>, out: seq<nat>, s: set<nat>, b: FeeFrac)
    requires g.Sized() && Prefix(g, ret, left) && Keeping(g, lin, ret, left)
    requires s != {} && g.Closed(left, s) && Lifts(g, Chunks(g, Keep(lin, left)), s, b)
    requires |ret| <= |out| && out[..|ret|] == ret && g.Linearizes(s, out[|ret|..])
    ensures Prefix(g, out, left - s) && Keeping(g, lin, out, left - s)
    ensures left - s < left
  {
    var front := out[|ret|..];
    assert out == ret + front;
    PrefixStep(g, ret, left, front);
    KeepingStep(g, lin, ret, left, front, b);
  }

  method PickMerged(c1: LinearizationChunking, c2: LinearizationChunking, g: Graph, ghost lin1: seq<nat>, ghost lin2: seq<nat>, ghost left: set<nat>)
    returns (best: SetInfo, ghost b: FeeFrac)
    requires g.Cluster() && left <= g.used && left != {}
    requires g.Linearizes(g.used, lin1) && g.Linearizes(g.used, lin2)
    requires Tracks(c1, g, lin1, left) && Tracks(c2, g, lin2, left)
    ensures best.transactions != {} && best.transactions <= left && g.Closed(left, best.transactions)
    ensures Lifts(g, Chunks(g, Keep(lin1, left)), best.transactions, b)
    ensures Lifts(g, Chunks(g, Keep(lin2, left)), best.transactions, b)
  {
    TracksChunks(c1, g, lin1, left);
    TracksChunks(c2, g, lin2, left);
    var first1, first2 := c1.GetChunk(0), c2.GetChunk(0);
    ghost var l1, l2 := Keep(lin1, left), Keep(lin2, left);
    ChunksAreChunking(g, l1);
    ChunksAreChunking(g, l2);
    FirstChunkSet(g, left, l1, Chunks(g, l1));
    FirstChunkSet(g, left, l2, Chunks(g, l2));
    hide *;
    if first2.feerate.Higher(first1.feerate) {
      HigherAsym(first1.feerate, first2.feerate);
      best := c1.IntersectPrefixes(first2);
      MergedSetLifts(g, left, l2, l1, best.transactions);
      b := first2.feerate;
    } else {
      best := c2.IntersectPrefixes(first1);
      MergedSetLifts(g, left, l1, l2, best.transactions);
      b := first1.feerate;
    }
  }

  lemma {:induction false} HigherAsym(a: FeeFrac, b: FeeFrac)
    ensures b.Higher(a) ==> !a.Higher(b)
  {
  }

  /** Merge two linearizations into one that is at least as good as both. */
  method MergeLinearizations(g: Graph, lin1: seq<nat>, lin2: seq<nat>) returns (ret: seq<nat>)
    requires g.Cluster() && g.Linearizes(g.used, lin1) && g.Linearizes(g.used, lin2)
    ensures g.Linearizes(g.used, ret)
    ensures AsGood(g, ret, lin1) && AsGood(g, ret, lin2)
  {
    var chunking1 := new LinearizationChunking(g, lin1);
    var chunking2 := new LinearizationChunking(g, lin2);
    KeepProps(lin1, g.used);
    KeepProps(lin2, g.used);
    PrefixStart(g);
    KeepingStart(g, lin1);
    KeepingStart(g, lin2);
    hide *;
    ret := [];
    if g.used != {} {
      ret := MergeLoop(chunking1, chunking2, g, lin1, lin2);
    }
    PrefixEnd(g, ret);
    KeepingEnd(g, lin1, ret);
    KeepingEnd(g, lin2, ret);
  }

  method MergeLoop(chunking1: LinearizationChunking, chunking2: LinearizationChunking, g: Graph, ghost lin1: seq<nat>, ghost lin2: seq<nat>)
    returns (ret: seq<nat>)
    requires g.Cluster() && g.used != {} && chunking1 != chunking2
    requires Tracks(chunking1, g, lin1, g.used) && Tracks(chunking2, g, lin2, g.used)
    requires Prefix(g, [], g.used) && Keeping(g, lin1, [], g.used) && Keeping(g, lin2, [], g.used)
    modifies chunking1, chunking2
    ensures Prefix(g, ret, {}) && Keeping(g, lin1, ret, {}) && Keeping(g, lin2, ret, {})
  {
    assert g.Valid() && g.Acyclic() && g.Sized();
    assert g.Linearizes(g.used, lin1) && g.Linearizes(g.used, lin2);
    hide *;
    ret := [];
    ghost var left := g.used;
    while true
      invariant left <= g.used && left != {}
      invariant Tracks(chunking1, g, lin1, left) && Tracks(chunking2, g, lin2, left)
      invariant Prefix(g, ret, left) && Keeping(g, lin1, ret, left) && Keeping(g, lin2, ret, left)
      decreases left
    {
      var best, b := PickMerged(chunking1, chunking2, g, lin1, lin2, left);
      ghost var before, was := ret, left;
      ret := DepGraphs.AppendTopo(g, ret, best.transactions);
      OutputStep(g, lin1, before, left, ret, best.transactions, b);
      OutputStep(g, lin2, before, left, ret, best.transactions, b);
      MarkTracked(chunking1, g, lin1, was, best.transactions);
      left := left - best.transactions;
      TracksChunks(chunking1, g, lin1, left);
      if chunking1.NumChunksLeft() == 0 { break; }
      MarkTracked(chunking2, g, lin2, was, best.transactions);
    }
  }
}
