/** Feerate diagrams of linearizations, and the chunks that shape them.

    The diagram of a list is the least concave curve above the points (size, fee) of its prefixes.
    It is handled here through its support function: `Peak` is the greatest height of a prefix
    above the line of a given slope.  One list is at least as good as another when its peak is at
    least as high at every slope; DiagramOrder relates that to the curves themselves. */
module Diagrams {
  import opened FeeFracs
  import opened Sets
  import opened Graphs

  ghost function Peak(g: Graph, slope: real, l: seq<nat>): real {
    if l == [] then 0.0 else Max(0.0, Excess(slope, g.Rate(l[0])) + Peak(g, slope, l[1..]))
  }

  /** Linearization `a` is at least as good as `b`, in the feerate diagram sense. */
  ghost predicate AsGood(g: Graph, a: seq<nat>, b: seq<nat>) {
    forall slope: real :: Peak(g, slope, b) <= Peak(g, slope, a)
  }

  /** No topologically valid set of transactions rises above the diagram of `l`. */
  ghost predicate Optimal(g: Graph, todo: set<nat>, l: seq<nat>) {
    forall slope: real, s: set<nat> :: g.Closed(todo, s) ==> Excess(slope, g.SetRate(s)) <= Peak(g, slope, l)
  }

  ghost function Height(g: Graph, slope: real, l: seq<nat>): real { Excess(slope, g.SeqRate(l)) }

  lemma {:induction false} HeightConcat(g: Graph, slope: real, a: seq<nat>, b: seq<nat>)
    ensures Height(g, slope, a + b) == Height(g, slope, a) + Height(g, slope, b)
  {
    SeqRateConcat(g, a, b);
    ExcessPlus(slope, g.SeqRate(a), g.SeqRate(b));
  }

  lemma {:induction false} PeakConcat(g: Graph, slope: real, a: seq<nat>, b: seq<nat>)
    ensures Peak(g, slope, a + b) == Max(Peak(g, slope, a), Height(g, slope, a) + Peak(g, slope, b))
    ensures Peak(g, slope, b) >= 0.0
  {
    if a == [] {
      assert a + b == b;
      assert Height(g, slope, a) == 0.0 by { assert slope * (0 as real) == 0.0; }
    } else {
      assert (a + b)[1..] == a[1..] + b;
      PeakConcat(g, slope, a[1..], b);
      ExcessPlus(slope, g.Rate(a[0]), g.SeqRate(a[1..]));
    }
  }

  /** The peak is at least as high as every prefix ... */
  lemma {:induction false} PeakBound(g: Graph, slope: real, l: seq<nat>, k: nat)
    requires k <= |l|
    ensures Height(g, slope, l[..k]) <= Peak(g, slope, l)
  {
    assert l == l[..k] + l[k..];
    PeakConcat(g, slope, l[..k], l[k..]);
  }

  /** ... and some prefix reaches it. */
  lemma {:induction false} PeakReached(g: Graph, slope: real, l: seq<nat>) returns (k: nat)
    ensures k <= |l| && Peak(g, slope, l) == Height(g, slope, l[..k])
  {
    assert Height(g, slope, []) == 0.0 by { assert slope * (0 as real) == 0.0; }
    if l == [] || Peak(g, slope, l) == 0.0 {
      k := 0;
    } else {
      var j := PeakReached(g, slope, l[1..]);
      k := j + 1;
      assert l[..k] == [l[0]] + l[1..][..j];
      HeightConcat(g, slope, [l[0]], l[1..][..j]);
      assert g.SeqRate([l[0]]) == g.Rate(l[0]).Plus(g.SeqRate([]));
    }
  }

  lemma {:induction false} AsGoodTrans(g: Graph, a: seq<nat>, b: seq<nat>, c: seq<nat>)
    requires AsGood(g, a, b) && AsGood(g, b, c)
    ensures AsGood(g, a, c)
  {
    forall slope: real ensures Peak(g, slope, c) <= Peak(g, slope, a) {
      assert Peak(g, slope, c) <= Peak(g, slope, b) <= Peak(g, slope, a);
    }
  }

  /** A common prefix and a common suffix do not matter, if the middles weigh the same. */
  lemma {:induction false} AsGoodContext(g: Graph, p: seq<nat>, a: seq<nat>, b: seq<nat>, q: seq<nat>)
    requires AsGood(g, a, b)
    requires g.SeqRate(a) == g.SeqRate(b) || q == []
    ensures AsGood(g, p + a + q, p + b + q)
  {
    hide Peak, Graph.SeqRate;
    forall slope: real ensures Peak(g, slope, p + b + q) <= Peak(g, slope, p + a + q) {
      assert Peak(g, slope, b) <= Peak(g, slope, a);
      PeakContext(g, slope, p, a, b, q);
    }
  }

  lemma {:induction false} PeakContext(g: Graph, slope: real, p: seq<nat>, a: seq<nat>, b: seq<nat>, q: seq<nat>)
    requires Peak(g, slope, b) <= Peak(g, slope, a)
    requires g.SeqRate(a) == g.SeqRate(b) || q == []
    ensures Peak(g, slope, p + b + q) <= Peak(g, slope, p + a + q)
  {
    assert g.SeqRate(a) == g.SeqRate(b) ==> Height(g, slope, a) == Height(g, slope, b);
    hide Peak, Height, Graph.SeqRate;
    PeakPrefix(g, slope, p, a, b);
    if q == [] {
      assert p + a + q == p + a && p + b + q == p + b;
    } else {
      HeightConcat(g, slope, p, a);
      HeightConcat(g, slope, p, b);
      PeakSuffix(g, slope, p + a, p + b, q);
    }
  }

  lemma {:induction false} PeakPrefix(g: Graph, slope: real, p: seq<nat>, a: seq<nat>, b: seq<nat>)
    requires Peak(g, slope, b) <= Peak(g, slope, a)
    ensures Peak(g, slope, p + b) <= Peak(g, slope, p + a)
  {
    hide Peak, Height;
    PeakConcat(g, slope, p, a);
    PeakConcat(g, slope, p, b);
  }

  lemma {:induction false} PeakSuffix(g: Graph, slope: real, a: seq<nat>, b: seq<nat>, q: seq<nat>)
    requires Peak(g, slope, b) <= Peak(g, slope, a) && Height(g, slope, a) == Height(g, slope, b)
    ensures Peak(g, slope, b + q) <= Peak(g, slope, a + q)
  {
    hide Peak, Height;
    PeakConcat(g, slope, a, q);
    PeakConcat(g, slope, b, q);
  }

  // ---------- chunks ----------

  ghost function Flatten(cs: seq<seq<nat>>): seq<nat> {
    if cs == [] then [] else cs[0] + Flatten(cs[1..])
  }

  lemma {:induction false} FlattenConcat(a: seq<seq<nat>>, b: seq<seq<nat>>)
    ensures Flatten(a + b) == Flatten(a) + Flatten(b)
  {
    if a == [] {
      assert a + b == b;
    } else {
      assert (a + b)[1..] == a[1..] + b;
      FlattenConcat(a[1..], b);
    }
  }

  lemma {:induction false} FlattenOne(c: seq<nat>)
    ensures Flatten([c]) == c
  {
    assert [c][1..] == [];
  }

  lemma {:induction false} FlattenSnoc(cs: seq<seq<nat>>, c: seq<nat>)
    ensures Flatten(cs + [c]) == Flatten(cs) + c
  {
    FlattenConcat(cs, [c]);
    FlattenOne(c);
  }

  lemma {:induction false} FlattenMember(cs: seq<seq<nat>>, i: nat)
    requires i < |cs|
    ensures Flatten(cs) == Flatten(cs[..i]) + cs[i] + Flatten(cs[i + 1..])
    ensures SetOf(cs[i]) <= SetOf(Flatten(cs))
  {
    assert cs == cs[..i] + [cs[i]] + cs[i + 1..];
    FlattenConcat(cs[..i] + [cs[i]], cs[i + 1..]);
    FlattenSnoc(cs[..i], cs[i]);
  }

  /** A list that chunking does not break up: every proper prefix has a strictly lower feerate
      than the whole. */
  ghost predicate Tight(g: Graph, c: seq<nat>) {
    c != [] && forall k :: 0 < k < |c| ==> g.SeqRate(c[..k]).Lower(g.SeqRate(c))
  }

  ghost predicate AllTight(g: Graph, cs: seq<seq<nat>>) {
    forall i :: 0 <= i < |cs| ==> Tight(g, cs[i])
  }

  ghost predicate NonIncreasing(g: Graph, cs: seq<seq<nat>>) {
    forall i, j :: 0 <= i < j < |cs| ==> !g.SeqRate(cs[j]).Higher(g.SeqRate(cs[i]))
  }

  /** `cs` is the chunking of `l`: unbreakable pieces in order of non-increasing feerate. */
  ghost predicate IsChunking(g: Graph, l: seq<nat>, cs: seq<seq<nat>>) {
    Flatten(cs) == l && AllTight(g, cs) && NonIncreasing(g, cs)
  }

  lemma {:induction false} TightPeak(g: Graph, slope: real, c: seq<nat>)
    requires g.Sized() && SetOf(c) <= g.used && Tight(g, c)
    ensures Peak(g, slope, c) == Max(0.0, Height(g, slope, c))
  {
    var k := PeakReached(g, slope, c);
    assert c[..|c|] == c && c[..0] == [];
    PeakBound(g, slope, c, 0);
    PeakBound(g, slope, c, |c|);
    assert Height(g, slope, []) == 0.0 by { assert slope * (0 as real) == 0.0; }
    if 0 < k < |c| {
      assert c == c[..k] + c[k..];
      SetOfConcat(c[..k], c[k..]);
      SeqRateConcat(g, c[..k], c[k..]);
      SeqRateSize(g, c[..k]);
      SeqRateSize(g, c[k..]);
      ExcessOfPart(slope, g.SeqRate(c[..k]), g.SeqRate(c));
    }
  }

  lemma {:induction false} TightSingle(g: Graph, c: seq<nat>)
    requires |c| == 1
    ensures Tight(g, c) && g.SeqRate(c) == g.Rate(c[0])
  {
    SeqRateSingle(g, c);
  }

  lemma {:induction false} SeqRateSingle(g: Graph, c: seq<nat>)
    requires |c| == 1
    ensures g.SeqRate(c) == g.Rate(c[0])
  {
    var rest := c[1..];
    assert rest == [];
    assert g.SeqRate(rest) == EMPTY;
  }

  /** Absorbing a lower-feerate piece on the left gives an unbreakable piece again. */
  lemma {:induction false} TightMerge(g: Graph, p: seq<nat>, c: seq<nat>)
    requires g.Sized() && SetOf(p + c) <= g.used
    requires Tight(g, p) && Tight(g, c)
    requires g.SeqRate(c).Higher(g.SeqRate(p))
    ensures Tight(g, p + c)
  {
    SetOfConcat(p, c);
    SeqRateConcat(g, p, c);
    SeqRateSize(g, p);
    SeqRateSize(g, c);
    var rp, rc, rpc := g.SeqRate(p), g.SeqRate(c), g.SeqRate(p + c);
    Mediant(rp, rc);
    forall k | 0 < k < |p + c| ensures g.SeqRate((p + c)[..k]).Lower(rpc) {
      if k < |p| {
        assert (p + c)[..k] == p[..k];
        assert SetOf(p[..k]) <= SetOf(p);
        SeqRateSize(g, p[..k]);
        LowerTrans(g.SeqRate(p[..k]), rp, rpc);
      } else if k == |p| {
        assert (p + c)[..k] == p;
      } else {
        var x, y := c[..k - |p|], c[k - |p|..];
        assert (p + c)[..k] == p + x;
        assert c == x + y;
        SetOfConcat(x, y);
        SeqRateConcat(g, x, y);
        SeqRateConcat(g, p, x);
        SeqRateSize(g, x);
        SeqRateSize(g, y);
        var rx, ry := g.SeqRate(x), g.SeqRate(y);
        Mediant(rx, ry);
        LowerTrans(rp, rc, ry);
        PlusLower(rp, rx, ry);
        Mediant(rp.Plus(rx), ry);
        assert rpc == rp.Plus(rx).Plus(ry);
      }
    }
  }

  /** Sum of the positive chunk heights. */
  ghost function Rise(g: Graph, slope: real, cs: seq<seq<nat>>): real {
    if cs == [] then 0.0 else Max(0.0, Height(g, slope, cs[0])) + Rise(g, slope, cs[1..])
  }

  lemma {:induction false} RiseConcat(g: Graph, slope: real, a: seq<seq<nat>>, b: seq<seq<nat>>)
    ensures Rise(g, slope, a + b) == Rise(g, slope, a) + Rise(g, slope, b)
  {
    if a == [] {
      assert a + b == b;
    } else {
      assert (a + b)[1..] == a[1..] + b;
      RiseConcat(g, slope, a[1..], b);
    }
  }

  /** At every slope the diagram climbs exactly the chunks that are steeper than it. */
  lemma {:induction false} PeakOfChunks(g: Graph, slope: real, cs: seq<seq<nat>>)
    requires g.Sized() && SetOf(Flatten(cs)) <= g.used
    requires AllTight(g, cs) && NonIncreasing(g, cs)
    ensures Peak(g, slope, Flatten(cs)) == Rise(g, slope, cs)
    ensures cs != [] && Height(g, slope, cs[0]) <= 0.0 ==> Peak(g, slope, Flatten(cs)) == 0.0
  {
    if cs != [] {
      var rest := cs[1..];
      SetOfConcat(cs[0], Flatten(rest));
      PeakOfChunks(g, slope, rest);
      PeakConcat(g, slope, cs[0], Flatten(rest));
      TightPeak(g, slope, cs[0]);
      if Height(g, slope, cs[0]) <= 0.0 && rest != [] {
        SetOfConcat(rest[0], Flatten(rest[1..]));
        SeqRateSize(g, cs[0]);
        SeqRateSize(g, rest[0]);
        assert rest[0] == cs[1];
        ExcessOrderDown(slope, g.SeqRate(cs[0]), g.SeqRate(rest[0]));
      }
    }
  }

  /** The peak is reached at the end of a chunk. */
  lemma {:induction false} PeakAtChunk(g: Graph, slope: real, cs: seq<seq<nat>>) returns (j: nat)
    requires g.Sized() && SetOf(Flatten(cs)) <= g.used
    requires AllTight(g, cs) && NonIncreasing(g, cs)
    ensures j <= |cs| && Peak(g, slope, Flatten(cs)) == Height(g, slope, Flatten(cs[..j]))
  {
    assert Height(g, slope, []) == 0.0 by { assert slope * (0 as real) == 0.0; }
    PeakOfChunks(g, slope, cs);
    if cs == [] || Height(g, slope, cs[0]) <= 0.0 {
      j := 0;
    } else {
      var rest := cs[1..];
      SetOfConcat(cs[0], Flatten(rest));
      PeakOfChunks(g, slope, rest);
      var i := PeakAtChunk(g, slope, rest);
      j := i + 1;
      assert cs[..j] == [cs[0]] + rest[..i];
      assert Flatten(cs[..j]) == cs[0] + Flatten(rest[..i]) by { assert cs[..j][1..] == rest[..i]; }
      HeightConcat(g, slope, cs[0], Flatten(rest[..i]));
    }
  }

  /** The first chunk is the highest-feerate prefix, and the shortest one of that feerate. */
  lemma {:induction false} FirstChunkBest(g: Graph, l: seq<nat>, cs: seq<seq<nat>>, k: nat)
    requires g.Sized() && SetOf(l) <= g.used
    requires IsChunking(g, l, cs) && 0 < k <= |l|
    ensures cs != [] && !g.SeqRate(l[..k]).Higher(g.SeqRate(cs[0]))
    ensures k < |cs[0]| ==> g.SeqRate(l[..k]).Lower(g.SeqRate(cs[0]))
  {
    SetOfConcat(cs[0], Flatten(cs[1..]));
    SeqRateSize(g, cs[0]);
    if k < |cs[0]| {
      assert l[..k] == cs[0][..k];
    } else {
      PrefixNotHigher(g, cs[1..], k - |cs[0]|, g.SeqRate(cs[0]));
      assert l[..k] == cs[0] + Flatten(cs[1..])[..k - |cs[0]|];
      SeqRateConcat(g, cs[0], Flatten(cs[1..])[..k - |cs[0]|]);
      PlusLower(g.SeqRate(cs[0]), g.SeqRate(Flatten(cs[1..])[..k - |cs[0]|]), g.SeqRate(cs[0]));
    }
  }

  lemma {:induction false} PrefixNotHigher(g: Graph, cs: seq<seq<nat>>, k: nat, bound: FeeFrac)
    requires g.Sized() && SetOf(Flatten(cs)) <= g.used && bound.size > 0
    requires AllTight(g, cs) && k <= |Flatten(cs)|
    requires forall i :: 0 <= i < |cs| ==> !g.SeqRate(cs[i]).Higher(bound)
    ensures !g.SeqRate(Flatten(cs)[..k]).Higher(bound)
  {
    if cs != [] && k > 0 {
      var c, rest := cs[0], Flatten(cs[1..]);
      SetOfConcat(c, rest);
      SeqRateSize(g, c);
      if k < |c| {
        assert Flatten(cs)[..k] == c[..k];
        assert SetOf(c[..k]) <= SetOf(c);
        SeqRateSize(g, c[..k]);
        NotHigherTrans(g.SeqRate(c[..k]), g.SeqRate(c), bound);
      } else {
        assert Flatten(cs)[..k] == c + rest[..k - |c|];
        PrefixNotHigher(g, cs[1..], k - |c|, bound);
        SeqRateConcat(g, c, rest[..k - |c|]);
        PlusLower(g.SeqRate(c), g.SeqRate(rest[..k - |c|]), bound);
      }
    } else {
      assert Flatten(cs)[..k] == [];
    }
  }

  /** A list has only one chunking. */
  lemma {:induction false} ChunkingUnique(g: Graph, l: seq<nat>, a: seq<seq<nat>>, b: seq<seq<nat>>)
    requires g.Sized() && SetOf(l) <= g.used
    requires IsChunking(g, l, a) && IsChunking(g, l, b)
    ensures a == b
    decreases |l|
  {
    if l == [] {
      assert a == [] && b == [];
    } else {
      var x, y := a[0], b[0];
      assert l[..|x|] == x && l[..|y|] == y;
      FirstChunkBest(g, l, a, |y|);
      FirstChunkBest(g, l, b, |x|);
      assert x == y;
      var rest := l[|x|..];
      assert rest == Flatten(a[1..]) == Flatten(b[1..]);
      ChunkingUnique(g, rest, a[1..], b[1..]);
      assert a == [x] + a[1..] && b == [y] + b[1..];
    }
  }
}
