/** Comparing two feerate diagrams from their chunk feerates (src/util/feefrac.cpp). */
module ChunkCompare {
  import opened FeeFracs

  datatype PartialOrdering = Less | Equivalent | Greater | Unordered

  ghost predicate AllSized(cs: seq<FeeFrac>) { forall i :: 0 <= i < |cs| ==> cs[i].size > 0 }

  ghost function Slope(f: FeeFrac): real
    requires f.size > 0
  {
    f.fee as real / f.size as real
  }

  /** The diagram: from (0, 0) through the cumulative size and fee after every chunk, and then
      horizontally to the right. */
  ghost function Curve(cs: seq<FeeFrac>, s: real): real
    requires AllSized(cs) && s >= 0.0
  {
    if cs == [] then 0.0
    else if s <= cs[0].size as real then Slope(cs[0]) * s
    else cs[0].fee as real + Curve(cs[1..], s - cs[0].size as real)
  }

  ghost predicate AboveAt(a: seq<FeeFrac>, b: seq<FeeFrac>, s: real)
    requires AllSized(a) && AllSized(b)
  {
    s >= 0.0 && Curve(a, s) > Curve(b, s)
  }

  /** Diagram a rises above diagram b somewhere. */
  ghost predicate Above(a: seq<FeeFrac>, b: seq<FeeFrac>)
    requires AllSized(a) && AllSized(b)
  {
    exists s: real :: AboveAt(a, b, s)
  }

  // ---------- points and pieces of a diagram ----------

  ghost function Sum(cs: seq<FeeFrac>): FeeFrac { if cs == [] then EMPTY else cs[0].Plus(Sum(cs[1..])) }

  lemma {:induction false} SumSnoc(cs: seq<FeeFrac>, i: nat)
    requires i < |cs|
    ensures Sum(cs[..i + 1]) == Sum(cs[..i]).Plus(cs[i])
  {
    if i == 0 {
      assert cs[..1][1..] == [];
    } else {
      assert cs[..i + 1][1..] == cs[1..][..i] && cs[..i][1..] == cs[1..][..i - 1];
      SumSnoc(cs[1..], i - 1);
    }
  }

  lemma {:induction false} SumHead(cs: seq<FeeFrac>, i: nat)
    requires 0 < i <= |cs| && AllSized(cs)
    ensures Sum(cs[..i]) == cs[0].Plus(Sum(cs[1..][..i - 1]))
  {
    assert cs[..i][1..] == cs[1..][..i - 1];
  }

  lemma {:induction false} SumSize(cs: seq<FeeFrac>, i: nat)
    requires AllSized(cs) && i <= |cs|
    ensures Sum(cs[..i]).size >= i
  {
    if i > 0 {
      SumSnoc(cs, i - 1);
      SumSize(cs, i - 1);
    }
  }

  lemma {:induction false} SlopeSize(f: FeeFrac)
    requires f.size > 0
    ensures Slope(f) * (f.size as real) == f.fee as real
  {
  }

  /** A reached point of a diagram: after i chunks, at or before s, with the next one after s. */
  ghost predicate Reached(cs: seq<FeeFrac>, i: nat, accum: FeeFrac, s: int) {
    && i <= |cs| && accum == Sum(cs[..i]) && 0 <= accum.size <= s
    && (i < |cs| ==> s < accum.size + cs[i].size)
  }

  /** The line through the last reached point towards the next one. */
  ghost function Line(cs: seq<FeeFrac>, i: nat, accum: FeeFrac, t: real): real
    requires AllSized(cs) && i <= |cs|
  {
    accum.fee as real + (if i < |cs| then Slope(cs[i]) * (t - accum.size as real) else 0.0)
  }

  lemma {:induction false} CurveIsLine(cs: seq<FeeFrac>, i: nat, t: real)
    requires AllSized(cs) && i <= |cs| && t >= Sum(cs[..i]).size as real
    requires i < |cs| ==> t <= (Sum(cs[..i]).size + cs[i].size) as real
    ensures t >= 0.0 && Curve(cs, t) == Line(cs, i, Sum(cs[..i]), t)
    decreases |cs|
  {
    SumSize(cs, i);
    if i == 0 {
      LineStart(cs, t);
    } else {
      var rest, w := cs[1..], cs[0].size;
      SumHead(cs, i);
      SumSize(rest, i - 1);
      hide Slope, Line, Sum;
      if t > w as real {
        CurveIsLine(rest, i - 1, t - w as real);
        LineShift(cs, i, Sum(rest[..i - 1]), t);
      } else {
        assert i == 1 && t == w as real;
        Corner(cs, Sum(cs[..i]));
      }
    }
  }

  lemma {:induction false} LineStart(cs: seq<FeeFrac>, t: real)
    requires AllSized(cs) && t >= 0.0 && (cs != [] ==> t <= cs[0].size as real)
    ensures Curve(cs, t) == Line(cs, 0, Sum(cs[..0]), t)
  {
    hide Slope;
    assert cs[..0] == [];
    assert t - EMPTY.size as real == t;
  }

  /** Where the first piece ends, it is as high as the line of the second one begins. */
  lemma {:induction false} Corner(cs: seq<FeeFrac>, accum: FeeFrac)
    requires AllSized(cs) && cs != [] && accum == cs[0]
    ensures Curve(cs, cs[0].size as real) == Line(cs, 1, accum, cs[0].size as real)
  {
    hide Slope;
    SlopeSize(cs[0]);
    if 1 < |cs| { assert Slope(cs[1]) * (cs[0].size as real - accum.size as real) == 0.0; }
  }

  lemma {:induction false} LineShift(cs: seq<FeeFrac>, i: nat, accum: FeeFrac, t: real)
    requires AllSized(cs) && 0 < i <= |cs|
    ensures AllSized(cs[1..]) && i - 1 <= |cs[1..]|
    ensures Line(cs, i, cs[0].Plus(accum), t) == cs[0].fee as real + Line(cs[1..], i - 1, accum, t - cs[0].size as real)
  {
    hide Slope;
    assert t - cs[0].size as real - accum.size as real == t - cs[0].Plus(accum).size as real;
  }

  // ---------- between two points ----------

  /** Whether a is above b at some size up to s; when true, a is above b somewhere. */
  ghost predicate OneWay(a: seq<FeeFrac>, b: seq<FeeFrac>, s: int, above: bool)
    requires AllSized(a) && AllSized(b)
  {
    (forall t: real :: t <= s as real && AboveAt(a, b, t) ==> above) && (above ==> Above(a, b))
  }

  /** A line that is positive somewhere between two points is positive at one of them. */
  lemma {:induction false} Between(m: real, k: real, s: real, t: real, p: real)
    requires s <= t <= p && m * t + k > 0.0
    ensures m * s + k > 0.0 || m * p + k > 0.0
  {
    if m >= 0.0 {
      assert m * (p - t) >= 0.0;
    } else {
      assert m * (s - t) >= 0.0;
    }
  }

  ghost function Steep(cs: seq<FeeFrac>, i: nat): real
    requires AllSized(cs) && i <= |cs|
  {
    if i < |cs| then Slope(cs[i]) else 0.0
  }

  /** Where the line through the last reached point meets size 0. */
  ghost function Start(cs: seq<FeeFrac>, i: nat, accum: FeeFrac): real
    requires AllSized(cs) && i <= |cs|
  {
    accum.fee as real - Steep(cs, i) * (accum.size as real)
  }

  /** Up to the next point. */
  ghost predicate Ahead(cs: seq<FeeFrac>, i: nat, accum: FeeFrac, s: int, t: real) {
    s as real <= t && (i < |cs| ==> t <= (accum.size + cs[i].size) as real)
  }

  /** The curve as a straight line on the stretch from s to the next point. */
  lemma {:induction false} OnStretch(cs: seq<FeeFrac>, i: nat, accum: FeeFrac, s: int, t: real)
    requires AllSized(cs) && Reached(cs, i, accum, s) && Ahead(cs, i, accum, s, t)
    ensures i <= |cs| && t >= 0.0 && Curve(cs, t) == Steep(cs, i) * t + Start(cs, i, accum)
  {
    hide Slope, Curve;
    CurveIsLine(cs, i, t);
    var m, w := Steep(cs, i), accum.size as real;
    assert m * (t - w) == m * t - m * w;
  }

  lemma {:induction false} AboveMeans(a: seq<FeeFrac>, b: seq<FeeFrac>, t: real)
    requires AllSized(a) && AllSized(b) && t >= 0.0
    ensures AboveAt(a, b, t) <==> Curve(a, t) > Curve(b, t)
  {
    hide Curve;
  }

  /** The distance between two curves, on a stretch without points in between. */
  lemma {:induction false} Distance(a: seq<FeeFrac>, i: nat, x: FeeFrac, b: seq<FeeFrac>, j: nat, y: FeeFrac, s: int, t: real)
    requires AllSized(a) && AllSized(b) && Reached(a, i, x, s) && Reached(b, j, y, s)
    requires Ahead(a, i, x, s, t) && Ahead(b, j, y, s, t)
    ensures i <= |a| && j <= |b|
    ensures AboveAt(a, b, t) <==> (Steep(a, i) - Steep(b, j)) * t + (Start(a, i, x) - Start(b, j, y)) > 0.0
  {
    hide *;
    OnStretch(a, i, x, s, t);
    OnStretch(b, j, y, s, t);
    AboveMeans(a, b, t);
    Distribute(Steep(a, i), Steep(b, j), t);
  }

  /** Two curves on a common stretch without points in between. */
  lemma {:induction false} Stretch(a: seq<FeeFrac>, i: nat, x: FeeFrac, b: seq<FeeFrac>, j: nat, y: FeeFrac, s: int, p: real, t: real)
    requires AllSized(a) && AllSized(b) && Reached(a, i, x, s) && Reached(b, j, y, s)
    requires Ahead(a, i, x, s, s as real) && Ahead(a, i, x, s, t) && Ahead(a, i, x, s, p)
    requires Ahead(b, j, y, s, s as real) && Ahead(b, j, y, s, t) && Ahead(b, j, y, s, p)
    requires s as real <= t <= p && AboveAt(a, b, t)
    ensures AboveAt(a, b, s as real) || AboveAt(a, b, p)
  {
    hide *;
    Distance(a, i, x, b, j, y, s, t);
    Distance(a, i, x, b, j, y, s, s as real);
    Distance(a, i, x, b, j, y, s, p);
    Between(Steep(a, i) - Steep(b, j), Start(a, i, x) - Start(b, j, y), s as real, t, p);
  }

  lemma {:induction false} Distribute(m: real, n: real, t: real)
    ensures (m - n) * t == m * t - n * t
  {
  }

  lemma {:induction false} AheadBetween(cs: seq<FeeFrac>, i: nat, accum: FeeFrac, s: int, p: int, t: real)
    requires Reached(cs, i, accum, s) && s as real <= t <= p as real && (i < |cs| ==> p <= accum.size + cs[i].size)
    ensures Ahead(cs, i, accum, s, s as real) && Ahead(cs, i, accum, s, t) && Ahead(cs, i, accum, s, p as real)
  {
  }

  /** One way round: a is above b before p only where it was before s, or at p. */
  lemma {:induction false} SweepOneWay(a: seq<FeeFrac>, i: nat, x: FeeFrac, b: seq<FeeFrac>, j: nat, y: FeeFrac, s: int, p: int, above: bool)
    requires AllSized(a) && AllSized(b) && Reached(a, i, x, s) && Reached(b, j, y, s) && s <= p
    requires (i < |a| ==> p <= x.size + a[i].size) && (j < |b| ==> p <= y.size + b[j].size)
    requires OneWay(a, b, s, above)
    ensures OneWay(a, b, p, above || AboveAt(a, b, p as real))
  {
    hide AboveAt, Reached;
    forall t: real | t <= p as real && AboveAt(a, b, t) ensures above || AboveAt(a, b, p as real) {
      if t > s as real {
        AheadBetween(a, i, x, s, p, t);
        AheadBetween(b, j, y, s, p, t);
        Stretch(a, i, x, b, j, y, s, p as real, t);
      }
    }
  }

  // ---------- comparing at a point ----------

  /** Going from point A towards slope d for size w > 0, against the point P reached by slope ap:
      cross-multiplication compares the two heights. */
  lemma {:induction false} CrossHeight(ap: FeeFrac, d: FeeFrac)
    requires ap.size > 0 && d.size > 0
    ensures ap.Higher(d) <==> ap.fee as real > Slope(d) * (ap.size as real)
    ensures ap.Lower(d) <==> ap.fee as real < Slope(d) * (ap.size as real)
  {
    SlopeSize(d);
    var m, w := Slope(d), ap.size as real;
    hide Slope;
    var z := d.size as real;
    assert (m * w) * z == (m * z) * w;
    Scale(ap.fee as real, m * w, z);
    Scale(m * w, ap.fee as real, z);
    assert (ap.fee * d.size) as real == (ap.fee as real) * z;
    assert (d.fee * ap.size) as real == (d.fee as real) * w;
  }

  /** The slope the other diagram continues with: its next chunk, or horizontal when done. */
  ghost function Onward(cs: seq<FeeFrac>, j: nat): FeeFrac
    requires j <= |cs|
  {
    if j < |cs| then cs[j] else FeeFrac(0, 1)
  }

  lemma {:induction false} AtPoint(a: seq<FeeFrac>, i: nat, x: FeeFrac, s: int)
    requires AllSized(a) && Reached(a, i, x, s) && i < |a|
    ensures var point := a[i].Plus(x); point.size > s && s >= 0 && Curve(a, point.size as real) == point.fee as real
  {
    CurveIsLine(a, i, a[i].Plus(x).size as real);
    hide Slope, Curve;
    SlopeSize(a[i]);
  }

  lemma {:induction false} AtOther(b: seq<FeeFrac>, j: nat, y: FeeFrac, s: int, p: int)
    requires AllSized(b) && Reached(b, j, y, s) && Ahead(b, j, y, s, p as real) && p >= 0
    ensures j <= |b| && Curve(b, p as real) == y.fee as real + Slope(Onward(b, j)) * ((p - y.size) as real)
  {
    hide Curve, Slope, Sum;
    CurveIsLine(b, j, p as real);
    if j == |b| {
      Flat((p - y.size) as real);
    } else {
      assert (p - y.size) as real == p as real - y.size as real;
    }
  }

  lemma {:induction false} Flat(t: real)
    ensures Slope(FeeFrac(0, 1)) * t == 0.0
  {
  }

  /** P is the next point of a, at size p; y the last point of b before it. */
  lemma {:induction false} PointAbove(a: seq<FeeFrac>, i: nat, x: FeeFrac, b: seq<FeeFrac>, j: nat, y: FeeFrac, s: int)
    requires AllSized(a) && AllSized(b) && Reached(a, i, x, s) && Reached(b, j, y, s)
    requires i < |a| && (j < |b| ==> x.size + a[i].size <= y.size + b[j].size)
    ensures j <= |b|
    ensures var point := a[i].Plus(x);
            && point.Minus(y).size > 0
            && (point.Minus(y).Higher(Onward(b, j)) <==> AboveAt(a, b, point.size as real))
            && (point.Minus(y).Lower(Onward(b, j)) <==> AboveAt(b, a, point.size as real))
  {
    hide Curve, Slope, AboveAt, FeeFrac.Higher, FeeFrac.Lower;
    var point := a[i].Plus(x);
    AtPoint(a, i, x, s);
    AtOther(b, j, y, s, point.size);
    AboveMeans(a, b, point.size as real);
    AboveMeans(b, a, point.size as real);
    CrossHeight(point.Minus(y), Onward(b, j));
  }

  // ---------- the comparison ----------

  lemma {:induction false} AfterTheEnd(cs: seq<FeeFrac>, accum: FeeFrac, s: int, t: real)
    requires AllSized(cs) && Reached(cs, |cs|, accum, s) && s as real <= t
    ensures s >= 0 && Curve(cs, t) == Curve(cs, s as real)
  {
    CurveIsLine(cs, |cs|, t);
    CurveIsLine(cs, |cs|, s as real);
  }

  lemma {:induction false} SweptAll(a: seq<FeeFrac>, x: FeeFrac, b: seq<FeeFrac>, y: FeeFrac, s: int, above: bool)
    requires AllSized(a) && AllSized(b) && Reached(a, |a|, x, s) && Reached(b, |b|, y, s) && OneWay(a, b, s, above)
    ensures above == Above(a, b)
  {
    hide Curve, Reached;
    if Above(a, b) {
      var t :| AboveAt(a, b, t);
      if t > s as real {
        AfterTheEnd(a, x, s, t);
        AfterTheEnd(b, y, s, t);
        assert AboveAt(a, b, s as real);
      }
    }
  }

  lemma {:induction false} Advance(cs: seq<FeeFrac>, i: nat, accum: FeeFrac, s: int, p: int)
    requires AllSized(cs) && Reached(cs, i, accum, s) && s <= p
    ensures i < |cs| && p == accum.size + cs[i].size ==> Reached(cs, i + 1, accum.Plus(cs[i]), p)
    ensures (i < |cs| ==> p < accum.size + cs[i].size) ==> Reached(cs, i, accum, p)
  {
    if i < |cs| { SumSnoc(cs, i); }
  }

  /** Everything known after handling all points up to size s of two diagrams a and b. */
  ghost predicate Handled(a: seq<FeeFrac>, i: nat, x: FeeFrac, b: seq<FeeFrac>, j: nat, y: FeeFrac, aboveA: bool, aboveB: bool, s: int) {
    && AllSized(a) && AllSized(b) && Reached(a, i, x, s) && Reached(b, j, y, s) && OneWay(a, b, s, aboveA) && OneWay(b, a, s, aboveB)
  }

  lemma {:induction false} HandledSwap(a: seq<FeeFrac>, i: nat, x: FeeFrac, b: seq<FeeFrac>, j: nat, y: FeeFrac, aboveA: bool, aboveB: bool, s: int)
    ensures Handled(a, i, x, b, j, y, aboveA, aboveB, s) <==> Handled(b, j, y, a, i, x, aboveB, aboveA, s)
  {
    hide AllSized, Reached, OneWay;
  }

  lemma {:induction false} HandledStart(a: seq<FeeFrac>, b: seq<FeeFrac>)
    requires AllSized(a) && AllSized(b)
    ensures Handled(a, 0, EMPTY, b, 0, EMPTY, false, false, 0)
  {
  }

  lemma {:induction false} HandledRange(a: seq<FeeFrac>, i: nat, x: FeeFrac, b: seq<FeeFrac>, j: nat, y: FeeFrac, aboveA: bool, aboveB: bool, s: int)
    requires Handled(a, i, x, b, j, y, aboveA, aboveB, s)
    ensures i <= |a| && j <= |b|
    ensures aboveA && aboveB ==> AllSized(a) && AllSized(b) && Above(a, b) && Above(b, a)
  {
    hide AllSized, Above;
  }

  /** Handling the next point of a, when b has none before it. */
  lemma {:induction false} HandlePoint(a: seq<FeeFrac>, i: nat, x: FeeFrac, b: seq<FeeFrac>, j: nat, y: FeeFrac, aboveA: bool, aboveB: bool, s: int)
    requires Handled(a, i, x, b, j, y, aboveA, aboveB, s) && i < |a| && j <= |b|
    requires j < |b| ==> x.size + a[i].size <= y.size + b[j].size
    ensures var point := a[i].Plus(x); var ap := point.Minus(y);
            var both := j < |b| && point.size == y.size + b[j].size;
            && ap.size > 0
            && Handled(a, i + 1, x.Plus(a[i]), b, if both then j + 1 else j, if both then y.Plus(b[j]) else y,
                       aboveA || ap.Higher(Onward(b, j)), aboveB || ap.Lower(Onward(b, j)), point.size)
  {
    hide OneWay, AboveAt, FeeFrac.Higher, FeeFrac.Lower;
    var p := x.size + a[i].size;
    PointAbove(a, i, x, b, j, y, s);
    SweepOneWay(a, i, x, b, j, y, s, p, aboveA);
    SweepOneWay(b, j, y, a, i, x, s, p, aboveB);
    Advance(a, i, x, s, p);
    Advance(b, j, y, s, p);
    hide Reached, AllSized;
  }

  /** The partial order of two diagrams. */
  ghost function Comparison(a: seq<FeeFrac>, b: seq<FeeFrac>): PartialOrdering
    requires AllSized(a) && AllSized(b)
  {
    if Above(a, b) then (if Above(b, a) then Unordered else Greater) else (if Above(b, a) then Less else Equivalent)
  }

  /** One point: the first unprocessed one of diagram a, compared with the last processed one of
      diagram b and, when b is not done, the slope from there. */
  method ComparePoint(a: seq<FeeFrac>, i: nat, x: FeeFrac, b: seq<FeeFrac>, j: nat, y: FeeFrac, aboveA: bool, aboveB: bool, ghost s: int)
    returns (i': nat, x': FeeFrac, j': nat, y': FeeFrac, aboveA': bool, aboveB': bool, ghost s': int)
    requires Handled(a, i, x, b, j, y, aboveA, aboveB, s) && i < |a| && j <= |b|
    requires j < |b| ==> x.size + a[i].size <= y.size + b[j].size
    ensures Handled(a, i', x', b, j', y', aboveA', aboveB', s') && i' > i && j' >= j
  {
    HandlePoint(a, i, x, b, j, y, aboveA, aboveB, s);
    hide Handled, FeeFrac.Higher, FeeFrac.Lower;
    var pointP, pointA := a[i].Plus(x), y;
    var slopeAp := pointP.Minus(pointA);
    assert slopeAp.size > 0;
    s' := pointP.size;
    j', y' := j, y;
    var slope := FeeFrac(0, 1);
    if j < |b| {
      var pointB := b[j].Plus(y);
      slope := pointB.Minus(pointA);
      assert slope.size >= slopeAp.size;
      if pointB.size == pointP.size { j', y' := j + 1, y.Plus(b[j]); }
    }
    aboveA' := aboveA || slopeAp.Higher(slope);
    aboveB' := aboveB || slopeAp.Lower(slope);
    i', x' := i + 1, x.Plus(a[i]);
    assert slope == Onward(b, j);
  }

  method CompareChunks(chunks0: seq<FeeFrac>, chunks1: seq<FeeFrac>) returns (r: PartialOrdering)
    requires AllSized(chunks0) && AllSized(chunks1)
    ensures r == Comparison(chunks0, chunks1)
  {
    var i0, i1 := 0, 0;
    var accum0, accum1 := EMPTY, EMPTY;
    var better0, better1 := false, false;
    ghost var s := 0;
    HandledStart(chunks0, chunks1);
    while i0 < |chunks0| || i1 < |chunks1|
      invariant i0 <= |chunks0| && i1 <= |chunks1| && !(better0 && better1)
      invariant Handled(chunks0, i0, accum0, chunks1, i1, accum1, better0, better1, s)
      decreases |chunks0| - i0 + |chunks1| - i1
    {
      hide *;
      var side1 := if i0 == |chunks0| || i1 == |chunks1| then i0 == |chunks0|
      else chunks0[i0].Plus(accum0).size > chunks1[i1].Plus(accum1).size;
      PlusSize(chunks0, i0, accum0);
      PlusSize(chunks1, i1, accum1);
      if side1 {
        HandledSwap(chunks0, i0, accum0, chunks1, i1, accum1, better0, better1, s);
        i1, accum1, i0, accum0, better1, better0, s := ComparePoint(chunks1, i1, accum1, chunks0, i0, accum0, better1, better0, s);
        HandledSwap(chunks0, i0, accum0, chunks1, i1, accum1, better0, better1, s);
      } else {
        i0, accum0, i1, accum1, better0, better1, s := ComparePoint(chunks0, i0, accum0, chunks1, i1, accum1, better0, better1, s);
      }
      HandledRange(chunks0, i0, accum0, chunks1, i1, accum1, better0, better1, s);
      if better0 && better1 {
        BothAbove(chunks0, chunks1);
        return Unordered;
      }
    }
    Verdict(chunks0, accum0, chunks1, accum1, better0, better1, s);
    r := if better0 then Greater else if better1 then Less else Equivalent;
  }

  lemma {:induction false} PlusSize(cs: seq<FeeFrac>, i: nat, accum: FeeFrac)
    ensures i < |cs| ==> cs[i].Plus(accum).size == accum.size + cs[i].size
  {
  }

  lemma {:induction false} BothAbove(a: seq<FeeFrac>, b: seq<FeeFrac>)
    requires AllSized(a) && AllSized(b) && Above(a, b) && Above(b, a)
    ensures Comparison(a, b) == Unordered
  {
  }

  lemma {:induction false} Verdict(a: seq<FeeFrac>, x: FeeFrac, b: seq<FeeFrac>, y: FeeFrac, aboveA: bool, aboveB: bool, s: int)
    requires Handled(a, |a|, x, b, |b|, y, aboveA, aboveB, s)
    ensures AllSized(a) && AllSized(b) && aboveA == Above(a, b) && aboveB == Above(b, a)
  {
    hide Above, OneWay, Reached, AllSized;
    SweptAll(a, x, b, y, s, aboveA);
    SweptAll(b, y, a, x, s, aboveB);
  }
}
