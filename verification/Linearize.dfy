/** Linearize: find or improve a linearization (src/cluster_linearize.h:1001-1094). */
module Linearizers {
  import opened FeeFracs
  import opened Powers
  import opened Sets
  import opened Graphs
  import opened Diagrams
  import opened Chunkings
  import opened Improvements
  import opened Merging
  import opened AncestorFinders
  import opened SearchFinders
  import DepGraphs

  /** Followed by anything optimal for what is left, the output is optimal. */
  ghost predicate OptimalPrefix(g: Graph, lin: seq<nat>, left: set<nat>) {
    forall rest: seq<nat> {:trigger lin + rest} :: Optimal(g, left, rest) ==> Optimal(g, g.used, lin + rest)
  }

  lemma {:induction false} OptimalPrefixStart(g: Graph)
    ensures OptimalPrefix(g, [], g.used)
  {
    forall rest: seq<nat> | Optimal(g, g.used, rest) ensures Optimal(g, g.used, [] + rest) {
      assert [] + rest == rest;
    }
  }

  lemma {:induction false} OptimalPrefixStep(g: Graph, lin: seq<nat>, left: set<nat>, out: seq<nat>, s: set<nat>)
    requires g.Sized() && left <= g.used && OptimalPrefix(g, lin, left) && BestCandidate(g, left, s)
    requires |lin| <= |out| && out[..|lin|] == lin && g.Linearizes(s, out[|lin|..])
    ensures OptimalPrefix(g, out, left - s)
  {
    var front := out[|lin|..];
    forall rest: seq<nat> | Optimal(g, left - s, rest) ensures Optimal(g, g.used, out + rest) {
      BestFrontOptimal(g, left, front, rest);
      assert lin + (front + rest) == out + rest;
    }
  }

  lemma {:induction false} OptimalPrefixEnd(g: Graph, lin: seq<nat>)
    requires OptimalPrefix(g, lin, {})
    ensures Optimal(g, g.used, lin)
  {
    OptimalEmpty(g, {}, []);
    assert lin + [] == lin;
  }

  /** Number of iterations that suffices to linearize k transactions optimally. */
  ghost function Steps(k: nat): nat {
    if k == 0 then 0 else (k + 3) / 4 + 2 * Pow2(k) + Steps(k - 1)
  }

  lemma {:induction false} StepsMono(j: nat, k: nat)
    requires j <= k
    ensures Steps(j) <= Steps(k)
  {
    if j < k { StepsMono(j, k - 1); }
  }

  /** Cost charged for setting up the search: N^2/64, rounded up. */
  function StartIterations(n: nat): nat { (n * n + 63) / 64 }

  // ---------- choosing the next set ----------

  /** A remaining part of the old linearization, if one was given. */
  ghost predicate OldPart(c: LinearizationChunking, g: Graph, old_: seq<nat>, left: set<nat>)
    reads c
  {
    if old_ == [] then c.Valid() && c.g == g && c.NumChunksLeft() == 0
    else Tracks(c, g, old_, left) && g.Linearizes(g.used, old_)
  }

  ghost predicate Remaining(g: Graph, left: set<nat>, t: SetInfo) {
    Accurate(g, t) && t.transactions != {} && t.transactions <= left && g.Closed(left, t.transactions)
  }

  /** Not below the first chunk of what is left of the old linearization. */
  ghost predicate NotBelowOld(g: Graph, old_: seq<nat>, left: set<nat>, rate: FeeFrac) {
    old_ != [] ==> var cs := Chunks(g, Keep(old_, left)); cs != [] && !g.SeqRate(cs[0]).Higher(rate)
  }

  lemma {:induction false} OldChunk(c: LinearizationChunking, g: Graph, old_: seq<nat>, left: set<nat>)
    requires g.Cluster() && left <= g.used && left != {} && OldPart(c, g, old_, left)
    ensures c.Valid() && c.g == g
    ensures c.NumChunksLeft() > 0 <==> old_ != []
    ensures old_ != [] ==>
      var l := Keep(old_, left); var cs := Chunks(g, l);
      && g.Linearizes(left, l) && IsChunking(g, l, cs) && cs != []
      && Remaining(g, left, c.GetChunk(0)) && c.GetChunk(0).feerate == g.SeqRate(cs[0]) && c.GetChunk(0).feerate.size > 0
      && c.Rest() == l && c.todo == left
  {
    if old_ != [] {
      TracksChunks(c, g, old_, left);
      var l := Keep(old_, left);
      ChunksAreChunking(g, l);
      FirstChunkSet(g, left, l, Chunks(g, l));
      SetRateSize(g, SetOf(Chunks(g, l)[0]));
    }
  }

  /** Where the search starts: a set at least as good as every ancestor set and as the first old chunk. */
  method InitialBest(anc: AncestorCandidateFinder, chunking: LinearizationChunking, g: Graph, ghost old_: seq<nat>, ghost left: set<nat>)
    returns (best: SetInfo)
    requires g.Cluster() && left <= g.used && left != {} && OldPart(chunking, g, old_, left)
    requires anc.Valid() && anc.g == g && anc.todo == left
    ensures Remaining(g, left, best) && best.feerate.size > 0 && NotBelowOld(g, old_, left, best.feerate)
  {
    OldChunk(chunking, g, old_, left);
    best := anc.FindCandidateSet();
    SetRateSize(g, best.transactions);
    if chunking.NumChunksLeft() != 0 {
      var bestPrefix := chunking.GetChunk(0);
      Order(bestPrefix.feerate, best.feerate);
      Order(best.feerate, bestPrefix.feerate);
      if !bestPrefix.feerate.IsEmpty() && bestPrefix.feerate.BetterOrEqual(best.feerate) {
        best := bestPrefix;
      }
    }
  }

  lemma {:induction false} NotBelowKept(g: Graph, old_: seq<nat>, left: set<nat>, a: FeeFrac, b: FeeFrac)
    requires g.Sized() && left <= g.used && NotBelowOld(g, old_, left, a) && b.BetterOrEqual(a) && a.size > 0 && b.size > 0
    requires old_ != [] ==> SetOf(Keep(old_, left)) <= left && IsChunking(g, Keep(old_, left), Chunks(g, Keep(old_, left)))
    ensures NotBelowOld(g, old_, left, b)
  {
    if old_ != [] {
      var cs := Chunks(g, Keep(old_, left));
      SetOfConcat(cs[0], Flatten(cs[1..]));
      SeqRateSize(g, cs[0]);
      Order(b, a);
      Order(a, b);
      NotHigherTrans(g.SeqRate(cs[0]), a, b);
    }
  }

  /** Run intersections to keep every diagram point of the old linearization reachable. */
  method Intersect(chunking: LinearizationChunking, g: Graph, ghost old_: seq<nat>, ghost left: set<nat>, best: SetInfo) returns (r: SetInfo, ghost b: FeeFrac)
    requires g.Cluster() && left <= g.used && left != {} && OldPart(chunking, g, old_, left)
    requires Remaining(g, left, best) && NotBelowOld(g, old_, left, best.feerate)
    ensures Remaining(g, left, r)
    ensures old_ != [] ==> Lifts(g, Chunks(g, Keep(old_, left)), r.transactions, b)
  {
    OldChunk(chunking, g, old_, left);
    r, b := best, best.feerate;
    if chunking.NumChunksLeft() > 0 {
      r := chunking.IntersectPrefixes(best);
      IntersectionRemains(g, left, Keep(old_, left), best.transactions, r.transactions);
    }
  }

  lemma {:induction false} IntersectionRemains(g: Graph, left: set<nat>, l: seq<nat>, t: set<nat>, s: set<nat>)
    requires g.Cluster() && left <= g.used && g.Linearizes(left, l) && IsChunking(g, l, Chunks(g, l)) && Chunks(g, l) != []
    requires t != {} && g.Closed(left, t) && Intersection(g, Chunks(g, l), t, s)
    requires !g.SeqRate(Chunks(g, l)[0]).Higher(g.SetRate(t))
    ensures s != {} && s <= left && g.Closed(left, s) && Lifts(g, Chunks(g, l), s, g.SetRate(t))
  {
    var cs := Chunks(g, l);
    IntersectionLifts(g, cs, t, s);
    var j :| 0 <= j <= |cs| && IntersectionAt(g, cs, t, s, j);
    ChunkPrefixClosed(g, left, l, cs, j);
    ClosedUnion(g, left, t, PrefixSet(cs, j));
  }

  /** One search with half of the budget, rounded up, after the setup charge. */
  method BoundedSearch(src: SearchCandidateFinder?, g: Graph, ghost left: set<nat>, remaining: nat, best0: SetInfo, iterations0: nat)
    returns (best: SetInfo, iterations: nat, proven: bool)
    requires g.Cluster() && left <= g.used && left != {} && Remaining(g, left, best0) && remaining == |left|
    requires src != null ==> src.Valid() && src.g == g && src.left == left
    ensures Remaining(g, left, best) && best.feerate.BetterOrEqual(best0.feerate)
    ensures proven ==> BestCandidate(g, left, best.transactions)
    ensures src != null && iterations0 >= Steps(|left|) ==> proven && iterations >= Steps(|left| - 1)
  {
    best, iterations := best0, iterations0;
    var doneNow, maxNow := 0, 0;
    Order(best.feerate, best.feerate);
    if src != null {
      var baseIterations := (remaining + 3) / 4;
      if iterations > baseIterations {
        iterations := iterations - baseIterations;
        maxNow := (iterations + 1) / 2;
        best, doneNow := src.FindCandidateSet(maxNow, best);
        iterations := iterations - doneNow;
      }
    }
    proven := doneNow != maxNow;
    if src != null && iterations0 >= Steps(|left|) {
      assert |left| >= 1;
      assert Steps(|left|) == (|left| + 3) / 4 + 2 * Pow2(|left|) + Steps(|left| - 1);
    }
  }

  lemma {:induction false} BestKeepsOld(g: Graph, left: set<nat>, old_: seq<nat>, t: SetInfo)
    requires g.Cluster() && left <= g.used && Remaining(g, left, t) && BestCandidate(g, left, t.transactions)
    requires g.Linearizes(left, Keep(old_, left)) && IsChunking(g, Keep(old_, left), Chunks(g, Keep(old_, left)))
    ensures Lifts(g, Chunks(g, Keep(old_, left)), t.transactions, t.feerate)
  {
    BestLifts(g, left, Keep(old_, left), Chunks(g, Keep(old_, left)), t.transactions);
  }

  /** The next set to output; `proven` says that the search found it to be the best of all. */
  method ChooseSet(anc: AncestorCandidateFinder, src: SearchCandidateFinder?, chunking: LinearizationChunking, g: Graph,
                   ghost old_: seq<nat>, ghost left: set<nat>, iterations0: nat)
    returns (best: SetInfo, iterations: nat, proven: bool, ghost b: FeeFrac)
    requires g.Cluster() && left <= g.used && left != {} && OldPart(chunking, g, old_, left)
    requires anc.Valid() && anc.g == g && anc.todo == left
    requires src != null ==> src.Valid() && src.g == g && src.left == left
    ensures Remaining(g, left, best)
    ensures old_ != [] ==> Lifts(g, Chunks(g, Keep(old_, left)), best.transactions, b)
    ensures proven ==> BestCandidate(g, left, best.transactions)
    ensures src != null && iterations0 >= Steps(|left|) ==> proven && iterations >= Steps(|left| - 1)
  {
    hide *;
    var first := InitialBest(anc, chunking, g, old_, left);
    best, iterations, proven := BoundedSearch(src, g, left, |anc.todo|, first, iterations0);
    SearchKeepsOld(chunking, g, old_, left, first, best);
    b := best.feerate;
    if proven {
      if old_ != [] { BestKeepsOld(g, left, old_, best); }
    } else {
      best, b := Intersect(chunking, g, old_, left, best);
    }
  }

  lemma {:induction false} SearchKeepsOld(chunking: LinearizationChunking, g: Graph, old_: seq<nat>, left: set<nat>, first: SetInfo, best: SetInfo)
    requires g.Cluster() && left <= g.used && left != {} && OldPart(chunking, g, old_, left)
    requires Remaining(g, left, first) && first.feerate.size > 0 && NotBelowOld(g, old_, left, first.feerate)
    requires Remaining(g, left, best) && best.feerate.BetterOrEqual(first.feerate)
    ensures NotBelowOld(g, old_, left, best.feerate)
    ensures old_ != [] ==> g.Linearizes(left, Keep(old_, left)) && IsChunking(g, Keep(old_, left), Chunks(g, Keep(old_, left)))
  {
    OldChunk(chunking, g, old_, left);
    SetRateSize(g, best.transactions);
    NotBelowKept(g, old_, left, first.feerate, best.feerate);
  }

  /** Everything known about the output between two steps. */
  ghost predicate Progress(g: Graph, old_: seq<nat>, lin: seq<nat>, left: set<nat>, optimal: bool) {
    && left <= g.used && Prefix(g, lin, left)
    && (old_ != [] ==> Keeping(g, old_, lin, left))
    && (optimal ==> OptimalPrefix(g, lin, left))
  }

  lemma {:induction false} ProgressStart(g: Graph, old_: seq<nat>)
    requires old_ == [] || g.Linearizes(g.used, old_)
    ensures Progress(g, old_, [], g.used, true)
  {
    PrefixStart(g);
    OptimalPrefixStart(g);
    if old_ != [] { KeepingStart(g, old_); }
  }

  lemma {:induction false} ProgressStep(g: Graph, old_: seq<nat>, lin: seq<nat>, left: set<nat>, optimal: bool, out: seq<nat>, t: SetInfo, proven: bool, b: FeeFrac)
    requires g.Cluster() && Progress(g, old_, lin, left, optimal) && Remaining(g, left, t)
    requires old_ != [] ==> Lifts(g, Chunks(g, Keep(old_, left)), t.transactions, b)
    requires proven ==> BestCandidate(g, left, t.transactions)
    requires |lin| <= |out| && out[..|lin|] == lin && g.Linearizes(t.transactions, out[|lin|..])
    ensures Progress(g, old_, out, left - t.transactions, optimal && proven)
  {
    var s := t.transactions;
    var front := out[|lin|..];
    assert out == lin + front;
    PrefixStep(g, lin, left, front);
    if old_ != [] { KeepingStep(g, old_, lin, left, front, b); }
    if optimal && proven { OptimalPrefixStep(g, lin, left, out, s); }
  }

  lemma {:induction false} ProgressEnd(g: Graph, old_: seq<nat>, lin: seq<nat>, optimal: bool)
    requires Progress(g, old_, lin, {}, optimal)
    ensures g.Linearizes(g.used, lin)
    ensures old_ != [] ==> AsGood(g, lin, old_)
    ensures optimal ==> Optimal(g, g.used, lin)
  {
    PrefixEnd(g, lin);
    if old_ != [] { KeepingEnd(g, old_, lin); }
    if optimal { OptimalPrefixEnd(g, lin); }
  }

  method MarkOld(c: LinearizationChunking, g: Graph, ghost old_: seq<nat>, ghost left: set<nat>, s: set<nat>)
    requires g.Cluster() && left <= g.used && left != {} && OldPart(c, g, old_, left) && s != {} && s <= left
    modifies c
    ensures OldPart(c, g, old_, left - s)
  {
    OldChunk(c, g, old_, left);
    if c.NumChunksLeft() > 0 {
      MarkTracked(c, g, old_, left, s);
    }
  }

  /** Find a linearization at least as good as `oldLin`, if that is not empty.  The result is
      known to be optimal if the flag says so, and it says so whenever the budget is ample. */
  method Linearize(g: Graph, maxIterations: nat, oldLin: seq<nat>) returns (lin: seq<nat>, optimal: bool)
    requires g.Cluster() && (oldLin == [] || g.Linearizes(g.used, oldLin))
    ensures g.Linearizes(g.used, lin)
    ensures oldLin != [] ==> AsGood(g, lin, oldLin)
    ensures optimal ==> Optimal(g, g.used, lin)
    ensures maxIterations > StartIterations(|g.used|) + Steps(|g.used|) ==> optimal
  {
    ProgressStart(g, oldLin);
    if g.used == {} {
      ProgressEnd(g, oldLin, [], true);
      return [], true;
    }
    var iterations := maxIterations;
    var anc := new AncestorCandidateFinder(g);
    var src: SearchCandidateFinder? := null;
    var startIterations := StartIterations(|g.used|);
    if iterations > startIterations {
      iterations := iterations - startIterations;
      src := new SearchCandidateFinder(g);
    }
    var chunking := new LinearizationChunking(g, oldLin);
    StartOld(chunking, g, oldLin);
    lin, optimal := LinearizeLoop(anc, src, chunking, g, oldLin, iterations);
    ProgressEnd(g, oldLin, lin, optimal);
  }

  lemma {:induction false} StartOld(c: LinearizationChunking, g: Graph, old_: seq<nat>)
    requires c.Valid() && c.g == g && c.Rest() == old_ && c.todo == SetOf(old_) && (old_ == [] || g.Linearizes(g.used, old_))
    ensures OldPart(c, g, old_, g.used)
  {
    if old_ != [] { KeepProps(old_, g.used); }
  }

  method LinearizeLoop(anc: AncestorCandidateFinder, src: SearchCandidateFinder?, chunking: LinearizationChunking, g: Graph,
                       ghost old_: seq<nat>, iterations0: nat)
    returns (lin: seq<nat>, optimal: bool)
    requires g.Cluster() && g.used != {} && Progress(g, old_, [], g.used, true) && OldPart(chunking, g, old_, g.used)
    requires anc.Valid() && anc.g == g && anc.todo == g.used
    requires src != null ==> src.Valid() && src.g == g && src.left == g.used
    modifies anc, chunking, src
    ensures Progress(g, old_, lin, {}, optimal)
    ensures src != null && iterations0 >= Steps(|g.used|) ==> optimal
  {
    hide *;
    lin, optimal := [], true;
    var iterations: nat := iterations0;
    ghost var left := g.used;
    ghost var ample := src != null && iterations0 >= Steps(|g.used|);
    ClusterFacts(g);
    while true
      invariant left <= g.used && left != {} && OldPart(chunking, g, old_, left)
      invariant anc.Valid() && anc.g == g && anc.todo == left
      invariant src != null ==> src.Valid() && src.g == g && src.left == left
      invariant Progress(g, old_, lin, left, optimal)
      invariant ample ==> src != null && optimal && iterations >= Steps(|left|)
      decreases left
    {
      var best, more, proven, b := ChooseSet(anc, src, chunking, g, old_, left, iterations);
      RemainingFacts(g, left, best);
      iterations := more;
      ghost var before := lin;
      lin := DepGraphs.AppendTopo(g, lin, best.transactions);
      ProgressStep(g, old_, before, left, optimal, lin, best, proven, b);
      optimal := optimal && proven;
      ghost var was := left;
      left := left - best.transactions;
      FewerLeft(was, best.transactions, left);
      anc.MarkDone(best.transactions);
      if anc.todo == {} { break; }
      if src != null { src.MarkDone(best.transactions); }
      MarkOld(chunking, g, old_, was, best.transactions);
    }
  }

  lemma {:induction false} ClusterFacts(g: Graph)
    requires g.Cluster()
    ensures g.Valid() && g.Acyclic() && g.Sized()
  {
  }

  lemma {:induction false} RemainingFacts(g: Graph, left: set<nat>, t: SetInfo)
    requires Remaining(g, left, t)
    ensures t.transactions != {} && t.transactions <= left
  {
  }

  lemma {:induction false} FewerLeft(was: set<nat>, s: set<nat>, left: set<nat>)
    requires s != {} && s <= was && left == was - s
    ensures left < was && |left| <= |was| - 1 && Steps(|left|) <= Steps(|was| - 1)
  {
    SubsetSize(left, was);
    StepsMono(|left|, |was| - 1);
  }
}
