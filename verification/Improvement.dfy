/** Why moving a set of transactions to the front of a linearization does not make it worse
    (the guarantee of src/cluster_linearize.h:483-491, and of the candidate search). */
module Improvements {
  import opened FeeFracs
  import opened Sets
  import opened Graphs
  import opened Diagrams
  import opened Chunkings

  /** A topologically valid set that no other beats: highest feerate, then smallest size. */
  ghost predicate BestCandidate(g: Graph, todo: set<nat>, t: set<nat>) {
    && t != {} && g.Closed(todo, t)
    && forall s :: s != {} && g.Closed(todo, s) ==> !g.SetRate(s).Better(g.SetRate(t))
  }

  /** Feerate `b` is at least that of the first chunk and at most that of what any prefix of the
      chunks lacks of `s`. */
  ghost predicate Lifts(g: Graph, cs: seq<seq<nat>>, s: set<nat>, b: FeeFrac) {
    && b.size > 0
    && cs != [] && !g.SeqRate(cs[0]).Higher(b)
    && forall j :: 0 <= j <= |cs| ==> !g.SetRate(s - PrefixSet(cs, j)).Lower(b)
  }

  /** Adding what it lacks of `s` does not lower a prefix, at slopes up to that of `b`. */
  lemma {:induction false} PrefixGains(g: Graph, slope: real, q: set<nat>, s: set<nat>, b: FeeFrac)
    requires g.Sized() && q <= g.used && s <= g.used && b.size > 0
    requires !g.SetRate(s - q).Lower(b) && Excess(slope, b) >= 0.0
    ensures Excess(slope, g.SetRate(s)) + Excess(slope, g.SetRate(q - s)) >= Excess(slope, g.SetRate(q))
  {
    SetRateSize(g, s - q);
    ExcessOrder(slope, b, g.SetRate(s - q));
    SetRateSplit(g, s, q);
    SetRateSplit(g, q, s);
    assert s * q == q * s;
    ExcessPlus(slope, g.SetRate(s * q), g.SetRate(s - q));
    ExcessPlus(slope, g.SetRate(q * s), g.SetRate(q - s));
  }

  /** The diagram with `front` moved ahead passes over every peak of the old one. */
  lemma {:induction false} FrontImproves(g: Graph, l: seq<nat>, cs: seq<seq<nat>>, front: seq<nat>, b: FeeFrac)
    requires g.Sized() && Distinct(l) && SetOf(l) <= g.used && IsChunking(g, l, cs)
    requires Distinct(front) && SetOf(front) <= SetOf(l) && Lifts(g, cs, SetOf(front), b)
    ensures AsGood(g, front + Keep(l, SetOf(l) - SetOf(front)), l)
  {
    var s := SetOf(front);
    var rest := Keep(l, SetOf(l) - s);
    forall slope: real ensures Peak(g, slope, l) <= Peak(g, slope, front + rest) {
      if Excess(slope, b) < 0.0 {
        FlatDiagram(g, slope, cs, b);
        PeakConcat(g, slope, [], front + rest);
      } else {
        var j := PeakAtChunk(g, slope, cs);
        var head, tail := Flatten(cs[..j]), Flatten(cs[j..]);
        assert cs == cs[..j] + cs[j..];
        FlattenConcat(cs[..j], cs[j..]);
        SetOfConcat(head, tail);
        assert SetOf(head) == PrefixSet(cs, j);
        PrefixGains(g, slope, SetOf(head), s, b);
        FrontHeight(g, slope, front, head, tail);
        assert l == head + tail;
      }
    }
  }

  lemma {:induction false} FlatDiagram(g: Graph, slope: real, cs: seq<seq<nat>>, b: FeeFrac)
    requires g.Sized() && SetOf(Flatten(cs)) <= g.used && AllTight(g, cs) && NonIncreasing(g, cs)
    requires cs != [] && !g.SeqRate(cs[0]).Higher(b) && b.size > 0 && Excess(slope, b) < 0.0
    ensures Peak(g, slope, Flatten(cs)) == 0.0
  {
    SetOfConcat(cs[0], Flatten(cs[1..]));
    SeqRateSize(g, cs[0]);
    ExcessOrderDown(slope, b, g.SeqRate(cs[0]));
    PeakOfChunks(g, slope, cs);
  }

  lemma {:induction false} FrontHeight(g: Graph, slope: real, front: seq<nat>, head: seq<nat>, tail: seq<nat>)
    requires Distinct(head + tail) && Distinct(front) && SetOf(front) <= SetOf(head + tail)
    ensures var rest := Keep(head + tail, SetOf(head + tail) - SetOf(front));
            Excess(slope, g.SetRate(SetOf(front))) + Excess(slope, g.SetRate(SetOf(head) - SetOf(front)))
              <= Peak(g, slope, front + rest)
    ensures Height(g, slope, head) == Excess(slope, g.SetRate(SetOf(head)))
  {
    DistinctConcat(head, tail);
    SeqRateSet(g, head);
    hide *;
    KeepHeight(g, slope, front, head, tail);
    KeepPeak(g, slope, front, head, tail, SetOf(head + tail) - SetOf(front));
  }

  lemma {:induction false} KeepPeak(g: Graph, slope: real, front: seq<nat>, head: seq<nat>, tail: seq<nat>, left: set<nat>)
    ensures Height(g, slope, front + Keep(head, left)) <= Peak(g, slope, front + Keep(head + tail, left))
  {
    hide Peak, Height, Keep;
    var a, b := Keep(head, left), Keep(tail, left);
    KeepConcat(head, tail, left);
    assert front + (a + b) == (front + a) + b;
    PeakConcat(g, slope, front + a, b);
  }

  lemma {:induction false} KeepHeight(g: Graph, slope: real, front: seq<nat>, head: seq<nat>, tail: seq<nat>)
    requires Distinct(head + tail) && Distinct(front) && SetOf(front) <= SetOf(head + tail)
    ensures var left := SetOf(head + tail) - SetOf(front);
            Height(g, slope, front + Keep(head, left))
              == Excess(slope, g.SetRate(SetOf(front))) + Excess(slope, g.SetRate(SetOf(head) - SetOf(front)))
  {
    var left := SetOf(head + tail) - SetOf(front);
    DistinctConcat(head, tail);
    SetOfConcat(head, tail);
    KeepProps(head, left);
    assert SetOf(head) * left == SetOf(head) - SetOf(front);
    SeqRateSet(g, front);
    SeqRateSet(g, Keep(head, left));
    HeightConcat(g, slope, front, Keep(head, left));
  }

  // ---------- the three kinds of set that may be moved ----------

  /** An intersection with the chunk prefixes, of a set not below the first chunk. */
  lemma {:induction false} IntersectionLifts(g: Graph, cs: seq<seq<nat>>, t: set<nat>, s: set<nat>)
    requires g.Sized() && t <= g.used && t != {} && cs != [] && Intersection(g, cs, t, s)
    requires !g.SeqRate(cs[0]).Higher(g.SetRate(t))
    ensures Lifts(g, cs, s, g.SetRate(t))
  {
    SetRateSize(g, t);
    var k :| 0 <= k <= |cs| && IntersectionAt(g, cs, t, s, k);
    var b := g.SetRate(t);
    forall j | 0 <= j <= |cs| ensures !g.SetRate(s - PrefixSet(cs, j)).Lower(b) {
      var q := PrefixSet(cs, j);
      if j >= k {
        PrefixSetMono(cs, k, j);
        assert s - q == {};
      } else {
        PrefixSetMono(cs, j, k);
        assert s * q == t * q;
        SetRateSplit(g, s, q);
        if t * q == {} {
          assert forall x :: x in s ==> x !in s * q;
          assert s - q == s;
        } else {
          PlusLower(g.SetRate(s * q), g.SetRate(s - q), b);
        }
      }
    }
  }

  lemma {:induction false} PrefixSetMono(cs: seq<seq<nat>>, j: nat, k: nat)
    requires j <= k <= |cs|
    ensures PrefixSet(cs, j) <= PrefixSet(cs, k)
  {
    assert cs[..k] == cs[..j] + cs[j..k];
    FlattenConcat(cs[..j], cs[j..k]);
  }

  /** Part of the first chunk that is not below it. */
  lemma {:induction false} FirstChunkPartLifts(g: Graph, cs: seq<seq<nat>>, s: set<nat>)
    requires g.Sized() && SetOf(Flatten(cs)) <= g.used && AllTight(g, cs) && cs != []
    requires s <= SetOf(cs[0]) && !g.SetRate(s).Lower(g.SeqRate(cs[0]))
    ensures Lifts(g, cs, s, g.SeqRate(cs[0]))
  {
    SetOfConcat(cs[0], Flatten(cs[1..]));
    SeqRateSize(g, cs[0]);
    forall j | 0 <= j <= |cs| ensures !g.SetRate(s - PrefixSet(cs, j)).Lower(g.SeqRate(cs[0])) {
      if j == 0 {
        assert cs[..0] == [];
        assert s - PrefixSet(cs, 0) == s;
      } else {
        FirstInPrefix(cs, j);
        assert s - PrefixSet(cs, j) == {};
      }
    }
  }

  lemma {:induction false} FirstInPrefix(cs: seq<seq<nat>>, j: nat)
    requires 0 < j <= |cs|
    ensures SetOf(cs[0]) <= PrefixSet(cs, j)
  {
    FlattenMember(cs[..j], 0);
  }

  /** A best candidate of all. */
  lemma {:induction false} BestLifts(g: Graph, todo: set<nat>, l: seq<nat>, cs: seq<seq<nat>>, t: set<nat>)
    requires g.Sized() && todo <= g.used && g.Linearizes(todo, l) && IsChunking(g, l, cs)
    requires BestCandidate(g, todo, t)
    ensures Lifts(g, cs, t, g.SetRate(t))
  {
    SetRateSize(g, t);
    var b := g.SetRate(t);
    var x :| x in t;
    assert x in SetOf(l);
    assert cs != [];
    forall j | 0 <= j <= |cs| ensures g.Closed(todo, PrefixSet(cs, j)) { ChunkPrefixClosed(g, todo, l, cs, j); }
    FirstChunkNotHigher(g, todo, l, cs, t);
    forall j | 0 <= j <= |cs| ensures !g.SetRate(t - PrefixSet(cs, j)).Lower(b) {
      var q := PrefixSet(cs, j);
      ClosedUnion(g, todo, t, q);
      SetRateSplit(g, t, q);
      if t * q == {} {
        assert t - q == t;
      } else {
        assert !g.SetRate(t * q).Better(b);
        PlusLower(g.SetRate(t * q), g.SetRate(t - q), b);
      }
    }
  }

  lemma {:induction false} ChunkPrefixClosed(g: Graph, todo: set<nat>, l: seq<nat>, cs: seq<seq<nat>>, j: nat)
    requires g.Linearizes(todo, l) && Flatten(cs) == l && j <= |cs|
    ensures g.Closed(todo, PrefixSet(cs, j))
  {
    assert cs == cs[..j] + cs[j..];
    FlattenConcat(cs[..j], cs[j..]);
    assert l[..|Flatten(cs[..j])|] == Flatten(cs[..j]);
  }

  lemma {:induction false} FirstChunkNotHigher(g: Graph, todo: set<nat>, l: seq<nat>, cs: seq<seq<nat>>, t: set<nat>)
    requires g.Sized() && todo <= g.used && g.Linearizes(todo, l) && IsChunking(g, l, cs) && cs != []
    requires BestCandidate(g, todo, t)
    ensures !g.SeqRate(cs[0]).Higher(g.SetRate(t))
  {
    var c := cs[0];
    ChunkPrefixClosed(g, todo, l, cs, 1);
    assert cs[..1] == [c];
    FlattenOne(c);
    DistinctPrefix(c, l);
    SeqRateSet(g, c);
    assert c[0] in SetOf(c);
    assert !g.SetRate(SetOf(c)).Better(g.SetRate(t));
  }

  /** No closed set rises above a list that starts with a best candidate, if what follows is
      optimal for the rest. */
  lemma {:induction false} BestFrontOptimal(g: Graph, todo: set<nat>, front: seq<nat>, rest: seq<nat>)
    requires g.Sized() && todo <= g.used && Distinct(front)
    requires BestCandidate(g, todo, SetOf(front)) && Optimal(g, todo - SetOf(front), rest)
    ensures Optimal(g, todo, front + rest)
  {
    var t := SetOf(front);
    var b := g.SetRate(t);
    SetRateSize(g, t);
    forall slope: real, s: set<nat> | g.Closed(todo, s)
      ensures Excess(slope, g.SetRate(s)) <= Peak(g, slope, front + rest)
    {
      PeakConcat(g, slope, front, rest);
      PeakConcat(g, slope, [], front + rest);
      if Excess(slope, b) < 0.0 {
        if s == {} {
          assert g.SetRate(s) == EMPTY;
          assert slope * (0 as real) == 0.0;
        } else {
          SetRateSize(g, s);
          assert !g.SetRate(s).Better(b);
          ExcessOrderDown(slope, b, g.SetRate(s));
        }
      } else {
        ClosedRest(g, todo, t, s);
        SeqRateSet(g, front);
        BestMeets(g, todo, t, s);
        PrefixGains(g, slope, s, t, b);
      }
    }
  }

  /** What a closed set lacks of a best candidate is not below it. */
  lemma {:induction false} BestMeets(g: Graph, todo: set<nat>, t: set<nat>, s: set<nat>)
    requires g.Sized() && todo <= g.used && BestCandidate(g, todo, t) && g.Closed(todo, s)
    ensures !g.SetRate(t - s).Lower(g.SetRate(t))
  {
    ClosedUnion(g, todo, t, s);
    SetRateSplit(g, t, s);
    if t * s == {} {
      assert t - s == t;
    } else {
      assert !g.SetRate(t * s).Better(g.SetRate(t));
      PlusLower(g.SetRate(t * s), g.SetRate(t - s), g.SetRate(t));
    }
  }

  /** An optimal list is at least as good as every linearization of the same transactions. */
  lemma {:induction false} OptimalBeatsAll(g: Graph, todo: set<nat>, a: seq<nat>, l: seq<nat>)
    requires Optimal(g, todo, a) && g.Linearizes(todo, l)
    ensures AsGood(g, a, l)
  {
    forall slope: real ensures Peak(g, slope, l) <= Peak(g, slope, a) {
      var k := PeakReached(g, slope, l);
      assert Distinct(l[..k]);
      SeqRateSet(g, l[..k]);
    }
  }

  lemma {:induction false} OptimalEmpty(g: Graph, todo: set<nat>, l: seq<nat>)
    requires todo == {}
    ensures Optimal(g, todo, l)
  {
    forall slope: real, s: set<nat> | g.Closed(todo, s) ensures Excess(slope, g.SetRate(s)) <= Peak(g, slope, l) {
      assert s == {};
      assert slope * (0 as real) == 0.0;
      PeakConcat(g, slope, [], l);
    }
  }
}
