/** The diagrams of linearizations, as curves: one linearization is at least as good as another
    exactly when its curve is nowhere below. */
module DiagramOrder {
  import opened FeeFracs
  import opened Sets
  import opened Graphs
  import opened Diagrams
  import opened Chunkings
  import opened ChunkCompare
  import opened Improvements

  /** Height of the highest point of a concave diagram above the line of the given slope. */
  ghost function Summit(slope: real, rs: seq<FeeFrac>): real {
    if rs == [] then 0.0 else Max(0.0, Excess(slope, rs[0])) + Summit(slope, rs[1..])
  }

  ghost predicate Concave(rs: seq<FeeFrac>) {
    forall i, j :: 0 <= i < j < |rs| ==> !rs[j].Higher(rs[i])
  }

  lemma {:induction false} SummitIsRise(g: Graph, slope: real, cs: seq<seq<nat>>)
    ensures Summit(slope, Rates(g, cs)) == Rise(g, slope, cs)
  {
    if cs != [] {
      assert Rates(g, cs)[1..] == Rates(g, cs[1..]);
      SummitIsRise(g, slope, cs[1..]);
    }
  }

  lemma {:induction false} SumIsRate(g: Graph, cs: seq<seq<nat>>)
    ensures Sum(Rates(g, cs)) == g.SeqRate(Flatten(cs))
  {
    if cs != [] {
      assert Rates(g, cs)[1..] == Rates(g, cs[1..]);
      SumIsRate(g, cs[1..]);
      SeqRateConcat(g, cs[0], Flatten(cs[1..]));
    }
  }

  /** Feerates of chunks: positive sizes, never increasing. */
  lemma {:induction false} RatesConcave(g: Graph, l: seq<nat>)
    requires g.Sized() && SetOf(l) <= g.used
    ensures var rs := Rates(g, Chunks(g, l));
            && AllSized(rs) && Concave(rs) && Sum(rs) == g.SeqRate(l) && (forall slope :: Peak(g, slope, l) == Summit(slope, rs))
  {
    var cs := Chunks(g, l);
    ChunksAreChunking(g, l);
    SumIsRate(g, cs);
    forall i | 0 <= i < |cs| ensures Rates(g, cs)[i].size > 0 {
      FlattenMember(cs, i);
      SeqRateSize(g, cs[i]);
    }
    forall slope ensures Peak(g, slope, l) == Summit(slope, Rates(g, cs)) {
      PeakOfChunks(g, slope, cs);
      SummitIsRise(g, slope, cs);
    }
  }

  // ---------- a curve and its summits ----------

  lemma {:induction false} ExcessSlope(slope: real, f: FeeFrac)
    requires f.size > 0
    ensures Excess(slope, f) == (Slope(f) - slope) * (f.size as real)
    ensures Excess(Slope(f), f) == 0.0
  {
    SlopeSize(f);
    Distribute(Slope(f), slope, f.size as real);
  }

  lemma {:induction false} TailSized(rs: seq<FeeFrac>)
    requires rs != [] && AllSized(rs)
    ensures AllSized(rs[1..]) && rs[0].size > 0 && Sum(rs).size == rs[0].size + Sum(rs[1..]).size && Sum(rs[1..]).size >= 0
    ensures Concave(rs) ==> Concave(rs[1..])
  {
    assert rs[1..][..|rs| - 1] == rs[1..];
    SumSize(rs[1..], |rs| - 1);
  }

  lemma {:induction false} SummitHead(slope: real, rs: seq<FeeFrac>)
    ensures rs == [] ==> Summit(slope, rs) == 0.0
    ensures rs != [] ==> var e := rs[0].fee as real - slope * (rs[0].size as real);
                         && Excess(slope, rs[0]) == e
                         && Summit(slope, rs) == (if 0.0 < e then e else 0.0) + Summit(slope, rs[1..])
  {
  }

  /** How far the point (s, y) is above the line of that slope through the origin. */
  ghost function Over(slope: real, y: real, s: real): real { y - slope * s }

  ghost function Climb(slope: real, f: FeeFrac): real { Max(0.0, Excess(slope, f)) }

  lemma {:induction false} SummitClimb(slope: real, rs: seq<FeeFrac>)
    ensures Summit(slope, rs) == if rs == [] then 0.0 else Climb(slope, rs[0]) + Summit(slope, rs[1..])
    ensures rs != [] ==> Climb(slope, rs[0]) >= 0.0
  {
  }

  lemma {:induction false} CurveHead(rs: seq<FeeFrac>, s: real)
    requires AllSized(rs) && s >= 0.0
    ensures rs == [] ==> Curve(rs, s) == 0.0
    ensures rs != [] && s <= rs[0].size as real ==> Curve(rs, s) == Slope(rs[0]) * s
    ensures rs != [] && s > rs[0].size as real ==> AllSized(rs[1..]) && Curve(rs, s) == rs[0].fee as real + Curve(rs[1..], s - rs[0].size as real)
  {
    hide Slope;
  }

  lemma {:induction false} FirstPiece(slope: real, f: FeeFrac, s: real, y: real)
    requires f.size > 0 && 0.0 <= s <= f.size as real && y == Slope(f) * s
    ensures Over(slope, y, s) <= Climb(slope, f)
  {
    hide Slope, Excess;
    ExcessSlope(slope, f);
    Distribute(Slope(f), slope, s);
    Partial(Slope(f) - slope, s, f.size as real);
  }

  lemma {:induction false} LaterPiece(slope: real, f: FeeFrac, s: real, y: real, c: real, m: real)
    requires y == f.fee as real + c && Over(slope, c, s - f.size as real) <= m
    ensures Over(slope, y, s) <= Climb(slope, f) + m
  {
    Split(slope, s, f.size as real);
  }

  /** No part of a diagram is higher than its summit. */
  lemma {:induction false} CurveBelowSummit(slope: real, rs: seq<FeeFrac>, s: real)
    requires AllSized(rs) && 0.0 <= s <= Sum(rs).size as real
    ensures Over(slope, Curve(rs, s), s) <= Summit(slope, rs) && Summit(slope, rs) >= 0.0
  {
    hide *;
    SummitClimb(slope, rs);
    CurveHead(rs, s);
    if rs != [] {
      TailSized(rs);
      var w, rest := rs[0].size as real, rs[1..];
      if s <= w {
        CurveBelowSummit(slope, rest, 0.0);
        FirstPiece(slope, rs[0], s, Curve(rs, s));
      } else {
        CurveBelowSummit(slope, rest, s - w);
        LaterPiece(slope, rs[0], s, Curve(rs, s), Curve(rest, s - w), Summit(slope, rest));
      }
    } else {
      SumNone(rs);
      OverOrigin(slope);
    }
  }

  lemma {:induction false} OverOrigin(slope: real)
    ensures Over(slope, 0.0, 0.0) == 0.0
  {
  }

  lemma {:induction false} Partial(m: real, s: real, w: real)
    requires 0.0 <= s <= w
    ensures m * s <= if 0.0 < m * w then m * w else 0.0
  {
    if m >= 0.0 {
      assert m * (w - s) >= 0.0;
    } else {
      assert -m * s >= 0.0;
    }
  }

  lemma {:induction false} NoRise(slope: real, rs: seq<FeeFrac>)
    requires forall i :: 0 <= i < |rs| ==> Excess(slope, rs[i]) <= 0.0
    ensures Summit(slope, rs) == 0.0
  {
    if rs != [] { NoRise(slope, rs[1..]); }
  }

  /** Pieces after one that does not rise do not rise either. */
  lemma {:induction false} ConcaveTail(slope: real, rs: seq<FeeFrac>)
    requires AllSized(rs) && Concave(rs) && rs != [] && Excess(slope, rs[0]) <= 0.0
    ensures Summit(slope, rs) == 0.0
  {
    forall i | 0 <= i < |rs| ensures Excess(slope, rs[i]) <= 0.0 {
      if i > 0 { ExcessOrderDown(slope, rs[0], rs[i]); }
    }
    NoRise(slope, rs);
  }

  /** The summit is on the diagram. */
  lemma {:induction false} SummitPoint(slope: real, rs: seq<FeeFrac>) returns (s: real)
    requires AllSized(rs) && Concave(rs)
    ensures 0.0 <= s <= Sum(rs).size as real && Summit(slope, rs) == Curve(rs, s) - slope * s
  {
    hide *;
    SumNone(rs);
    SummitHead(slope, rs);
    if rs == [] {
      s := 0.0;
      CurveAtStart(rs);
    } else {
      TailSized(rs);
      if Excess(slope, rs[0]) <= 0.0 {
        s := 0.0;
        CurveAtStart(rs);
        ConcaveTail(slope, rs);
      } else {
        var w, rest := rs[0].size as real, rs[1..];
        var t := SummitPoint(slope, rest);
        s := w + t;
        Split(slope, s, w);
        CurveTail(rs, t);
      }
    }
  }

  lemma {:induction false} CurveAtStart(rs: seq<FeeFrac>)
    requires AllSized(rs)
    ensures Curve(rs, 0.0) == 0.0
  {
  }

  lemma {:induction false} CurveTail(rs: seq<FeeFrac>, t: real)
    requires rs != [] && AllSized(rs) && t >= 0.0
    ensures AllSized(rs[1..]) && Curve(rs, rs[0].size as real + t) == rs[0].fee as real + Curve(rs[1..], t)
  {
    SlopeSize(rs[0]);
    if t == 0.0 { assert Curve(rs[1..], t) == 0.0; }
  }

  /** Along each piece of its own, a concave diagram is as high as its summit. */
  lemma {:induction false} SummitAlong(rs: seq<FeeFrac>, s: real) returns (slope: real, i: nat)
    requires AllSized(rs) && Concave(rs) && 0.0 <= s < Sum(rs).size as real
    ensures Summit(slope, rs) == Curve(rs, s) - slope * s
    ensures i < |rs| && Excess(slope, rs[i]) == 0.0
  {
    hide *;
    SumNone(rs);
    TailSized(rs);
    var w, rest := rs[0].size as real, rs[1..];
    CurveHead(rs, s);
    if s <= w {
      slope, i := Slope(rs[0]), 0;
      ExcessSlope(slope, rs[0]);
      ConcaveTail(slope, rs);
    } else {
      var k: nat;
      slope, k := SummitAlong(rest, s - w);
      i := k + 1;
      SummitHead(slope, rs);
      Uphill(slope, rs, i);
      Split(slope, s, w);
    }
  }

  lemma {:induction false} SumNone(rs: seq<FeeFrac>)
    ensures rs == [] ==> Sum(rs).size == 0
  {
  }

  lemma {:induction false} Split(m: real, s: real, w: real)
    ensures m * s == m * w + m * (s - w)
  {
  }

  lemma {:induction false} Uphill(slope: real, rs: seq<FeeFrac>, i: nat)
    requires AllSized(rs) && Concave(rs) && 0 < i < |rs| && Excess(slope, rs[i]) == 0.0
    ensures Excess(slope, rs[0]) >= 0.0
  {
    hide Excess;
    ExcessOrder(slope, rs[i], rs[0]);
  }

  // ---------- both descriptions of "at least as good" ----------

  lemma {:induction false} CurveEnd(rs: seq<FeeFrac>, s: real)
    requires AllSized(rs) && s >= Sum(rs).size as real
    ensures s >= 0.0 && Curve(rs, s) == Sum(rs).fee as real
  {
    assert rs[..|rs|] == rs;
    CurveIsLine(rs, |rs|, s);
  }

  ghost predicate SummitsAsHigh(a: seq<FeeFrac>, b: seq<FeeFrac>) {
    forall slope: real :: Summit(slope, b) <= Summit(slope, a)
  }

  /** For concave diagrams with the same end: as high at every slope against nowhere below. */
  lemma {:induction false} HighMeansNotBelow(a: seq<FeeFrac>, b: seq<FeeFrac>)
    requires AllSized(a) && AllSized(b) && Concave(a) && Concave(b) && Sum(a) == Sum(b) && SummitsAsHigh(a, b)
    ensures !Above(b, a)
  {
    hide Concave, Summit, Curve;
    forall s: real ensures !AboveAt(b, a, s) {
      if 0.0 <= s < Sum(a).size as real {
        var slope, i := SummitAlong(a, s);
        CurveBelowSummit(slope, b, s);
        assert Summit(slope, b) <= Summit(slope, a);
      } else if s >= 0.0 {
        CurveEnd(a, s);
        CurveEnd(b, s);
      }
    }
  }

  lemma {:induction false} NotBelowMeansHigh(a: seq<FeeFrac>, b: seq<FeeFrac>)
    requires AllSized(a) && AllSized(b) && Concave(a) && Concave(b) && Sum(a) == Sum(b) && !Above(b, a)
    ensures SummitsAsHigh(a, b)
  {
    hide Concave, Summit, Curve;
    forall slope: real ensures Summit(slope, b) <= Summit(slope, a) {
      var s := SummitPoint(slope, b);
      CurveBelowSummit(slope, a, s);
      assert !AboveAt(b, a, s);
    }
  }

  /** The feerates of the chunks of a linearization, as ChunkLinearization computes them. */
  ghost function ChunkRates(g: Graph, l: seq<nat>): seq<FeeFrac> { Rates(g, Chunks(g, l)) }

  /** The order used throughout for linearizations is the one CompareChunks decides. */
  lemma {:induction false} AsGoodIsCompared(g: Graph, a: seq<nat>, b: seq<nat>)
    requires g.Sized() && SetOf(a) <= g.used && SetOf(b) <= g.used && g.SeqRate(a) == g.SeqRate(b)
    ensures AllSized(ChunkRates(g, a)) && AllSized(ChunkRates(g, b))
    ensures AsGood(g, a, b) <==> Comparison(ChunkRates(g, a), ChunkRates(g, b)) in {Greater, Equivalent}
  {
    hide Rates, Chunks, Peak, Summit, Above, Concave;
    RatesConcave(g, a);
    RatesConcave(g, b);
    var ra, rb := ChunkRates(g, a), ChunkRates(g, b);
    if AsGood(g, a, b) {
      forall slope: real ensures Summit(slope, rb) <= Summit(slope, ra) { assert Peak(g, slope, b) <= Peak(g, slope, a); }
      HighMeansNotBelow(ra, rb);
    }
    if !Above(rb, ra) {
      NotBelowMeansHigh(ra, rb);
      forall slope: real ensures Peak(g, slope, b) <= Peak(g, slope, a) { assert Summit(slope, rb) <= Summit(slope, ra); }
    }
  }

  /** Whatever CompareChunks could find of two linearizations of a cluster, it never ranks one
      above an optimal one. */
  lemma {:induction false} OptimalCompared(g: Graph, a: seq<nat>, b: seq<nat>)
    requires g.Cluster() && g.Linearizes(g.used, a) && g.Linearizes(g.used, b) && Optimal(g, g.used, a)
    ensures AllSized(ChunkRates(g, a)) && AllSized(ChunkRates(g, b))
    ensures Comparison(ChunkRates(g, a), ChunkRates(g, b)) in {Greater, Equivalent}
    ensures Optimal(g, g.used, b) ==> Comparison(ChunkRates(g, a), ChunkRates(g, b)) == Equivalent
  {
    hide Optimal, AsGood, Comparison, ChunkRates;
    OptimalBeatsAll(g, g.used, a, b);
    SeqRateSet(g, a);
    SeqRateSet(g, b);
    AsGoodIsCompared(g, a, b);
    if Optimal(g, g.used, b) {
      OptimalBeatsAll(g, g.used, b, a);
      AsGoodIsCompared(g, b, a);
      ComparedBothWays(ChunkRates(g, a), ChunkRates(g, b));
    }
  }

  lemma {:induction false} ComparedBothWays(a: seq<FeeFrac>, b: seq<FeeFrac>)
    requires AllSized(a) && AllSized(b)
    requires Comparison(a, b) in {Greater, Equivalent} && Comparison(b, a) in {Greater, Equivalent}
    ensures Comparison(a, b) == Equivalent
  {
  }
}
