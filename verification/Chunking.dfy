/** Chunking of linearizations (src/cluster_linearize.h:314-517). */
module Chunkings {
  import opened FeeFracs
  import opened Sets
  import opened Graphs
  import opened Diagrams
  import DepGraphs

  /** A set with what it pays and weighs; `Accurate` ties the two. */
  datatype SetInfo = SetInfo(transactions: set<nat>, feerate: FeeFrac)

  ghost predicate Accurate(g: Graph, info: SetInfo) { info.feerate == g.SetRate(info.transactions) }

  // ---------- the chunks of a list ----------

  /** Let piece `c` absorb the lower-feerate pieces before it. */
  ghost function Absorb(g: Graph, cs: seq<seq<nat>>, c: seq<nat>): seq<seq<nat>> {
    if cs == [] || !g.SeqRate(c).Higher(g.SeqRate(cs[|cs| - 1])) then cs + [c]
    else Absorb(g, cs[..|cs| - 1], cs[|cs| - 1] + c)
  }

  ghost function Chunks(g: Graph, l: seq<nat>): seq<seq<nat>> {
    if l == [] then [] else Absorb(g, Chunks(g, l[..|l| - 1]), [l[|l| - 1]])
  }

  lemma {:induction false} AbsorbKeeps(g: Graph, cs: seq<seq<nat>>, c: seq<nat>)
    requires g.Sized() && SetOf(Flatten(cs) + c) <= g.used
    requires AllTight(g, cs) && NonIncreasing(g, cs) && Tight(g, c)
    ensures IsChunking(g, Flatten(cs) + c, Absorb(g, cs, c))
  {
    if cs == [] || !g.SeqRate(c).Higher(g.SeqRate(cs[|cs| - 1])) {
      FlattenSnoc(cs, c);
      AppendNonIncreasing(g, cs, c);
    } else {
      var n := |cs| - 1;
      assert cs == cs[..n] + [cs[n]];
      FlattenSnoc(cs[..n], cs[n]);
      assert Flatten(cs) + c == Flatten(cs[..n]) + (cs[n] + c);
      assert SetOf(cs[n] + c) <= SetOf(Flatten(cs) + c);
      TightMerge(g, cs[n], c);
      AbsorbKeeps(g, cs[..n], cs[n] + c);
    }
  }

  lemma {:induction false} AppendNonIncreasing(g: Graph, cs: seq<seq<nat>>, c: seq<nat>)
    requires g.Sized() && SetOf(Flatten(cs) + c) <= g.used
    requires AllTight(g, cs) && NonIncreasing(g, cs) && c != []
    requires cs != [] ==> !g.SeqRate(c).Higher(g.SeqRate(cs[|cs| - 1]))
    ensures NonIncreasing(g, cs + [c])
  {
    var r := cs + [c];
    SetOfConcat(Flatten(cs), c);
    forall i, j | 0 <= i < j < |r| ensures !g.SeqRate(r[j]).Higher(g.SeqRate(r[i])) {
      if j == |cs| && i < |cs| - 1 {
        var n := |cs| - 1;
        FlattenMember(cs, i);
        FlattenMember(cs, n);
        SeqRateSize(g, cs[i]);
        SeqRateSize(g, cs[n]);
        SeqRateSize(g, c);
        NotHigherTrans(g.SeqRate(c), g.SeqRate(cs[n]), g.SeqRate(cs[i]));
      }
    }
  }

  /** Absorbing one transaction after another computes the chunking: `Chunks` satisfies the
      definition that, by ChunkingUnique, nothing else satisfies. */
  lemma {:induction false} ChunksAreChunking(g: Graph, l: seq<nat>)
    requires g.Sized() && SetOf(l) <= g.used
    ensures IsChunking(g, l, Chunks(g, l))
  {
    if l != [] {
      var n := |l| - 1;
      assert l == l[..n] + [l[n]];
      SetOfConcat(l[..n], [l[n]]);
      ChunksAreChunking(g, l[..n]);
      TightSingle(g, [l[n]]);
      AbsorbKeeps(g, Chunks(g, l[..n]), [l[n]]);
    }
  }

  /** Once the first chunk is gone, the others are the chunks of what is left. */
  lemma {:induction false} ChunksRest(g: Graph, l: seq<nat>)
    requires g.Sized() && SetOf(l) <= g.used && l != []
    ensures Chunks(g, l) != [] && Chunks(g, l)[0] <= l && Chunks(g, l)[0] != []
    ensures Chunks(g, l[|Chunks(g, l)[0]|..]) == Chunks(g, l)[1..]
  {
    ChunksAreChunking(g, l);
    var cs := Chunks(g, l);
    var rest := l[|cs[0]|..];
    assert rest == Flatten(cs[1..]);
    assert SetOf(rest) <= SetOf(l);
    ChunksAreChunking(g, rest);
    ChunkingUnique(g, rest, Chunks(g, rest), cs[1..]);
  }

  ghost function Rates(g: Graph, cs: seq<seq<nat>>): (r: seq<FeeFrac>)
    ensures |r| == |cs| && forall i :: 0 <= i < |cs| ==> r[i] == g.SeqRate(cs[i])
  {
    seq(|cs|, i requires 0 <= i < |cs| => g.SeqRate(cs[i]))
  }

  ghost function Infos(g: Graph, cs: seq<seq<nat>>): (r: seq<SetInfo>)
    ensures |r| == |cs| && forall i :: 0 <= i < |cs| ==> r[i] == SetInfo(SetOf(cs[i]), g.SeqRate(cs[i]))
  {
    seq(|cs|, i requires 0 <= i < |cs| => SetInfo(SetOf(cs[i]), g.SeqRate(cs[i])))
  }

  lemma {:induction false} RatesSnoc(g: Graph, cs: seq<seq<nat>>, c: seq<nat>)
    ensures Rates(g, cs + [c]) == Rates(g, cs) + [g.SeqRate(c)]
    ensures Infos(g, cs + [c]) == Infos(g, cs) + [SetInfo(SetOf(c), g.SeqRate(c))]
  {
  }

  /** One absorption: the last piece joins the new one. */
  lemma {:induction false} AbsorbStep(g: Graph, cs: seq<seq<nat>>, c: seq<nat>)
    requires cs != [] && g.SeqRate(c).Higher(g.SeqRate(cs[|cs| - 1]))
    ensures var n := |cs| - 1; var d := cs[n] + c;
            && Absorb(g, cs, c) == Absorb(g, cs[..n], d)
            && g.SeqRate(d) == g.SeqRate(c).Plus(g.SeqRate(cs[n])) && SetOf(d) == SetOf(cs[n]) + SetOf(c)
            && Rates(g, cs[..n]) == Rates(g, cs)[..n] && Infos(g, cs[..n]) == Infos(g, cs)[..n]
  {
    var n := |cs| - 1;
    SeqRateConcat(g, cs[n], c);
    SetOfConcat(cs[n], c);
    assert cs == cs[..n] + [cs[n]];
    RatesSnoc(g, cs[..n], cs[n]);
  }

  lemma {:induction false} AbsorbEnd(g: Graph, cs: seq<seq<nat>>, c: seq<nat>)
    requires Rates(g, cs) == [] || !g.SeqRate(c).Higher(Rates(g, cs)[|cs| - 1])
    ensures Rates(g, Absorb(g, cs, c)) == Rates(g, cs) + [g.SeqRate(c)]
    ensures Infos(g, Absorb(g, cs, c)) == Infos(g, cs) + [SetInfo(SetOf(c), g.SeqRate(c))]
  {
    assert Absorb(g, cs, c) == cs + [c];
    RatesSnoc(g, cs, c);
  }

  /** The feerates of the chunks of a linearization. */
  method ChunkLinearization(g: Graph, linearization: seq<nat>) returns (ret: seq<FeeFrac>)
    ensures ret == Rates(g, Chunks(g, linearization))
  {
    ret := [];
    var k := 0;
    while k < |linearization|
      invariant k <= |linearization|
      invariant ret == Rates(g, Chunks(g, linearization[..k]))
    {
      ret := AbsorbRate(g, ret, linearization[k], Chunks(g, linearization[..k]));
      assert linearization[..k + 1][..k] == linearization[..k];
      k := k + 1;
    }
    assert linearization[..k] == linearization;
  }

  method AbsorbRate(g: Graph, rates: seq<FeeFrac>, idx: nat, ghost start: seq<seq<nat>>) returns (ret: seq<FeeFrac>)
    requires rates == Rates(g, start)
    ensures ret == Rates(g, Absorb(g, start, [idx]))
  {
    hide *;
    ret := rates;
    var newChunk := g.Rate(idx);
    ghost var cs, c := start, [idx];
    SeqRateSingle(g, c);
    while ret != [] && newChunk.Higher(ret[|ret| - 1])
      invariant ret == Rates(g, cs) && newChunk == g.SeqRate(c)
      invariant Absorb(g, cs, c) == Absorb(g, start, [idx])
      decreases |ret|
    {
      assert ret[|ret| - 1] == g.SeqRate(cs[|cs| - 1]);
      AbsorbStep(g, cs, c);
      newChunk := newChunk.Plus(ret[|ret| - 1]);
      ret := ret[..|ret| - 1];
      cs, c := cs[..|cs| - 1], cs[|cs| - 1] + c;
    }
    AbsorbEnd(g, cs, c);
    ret := ret + [newChunk];
  }

  /** The same with the sets of the chunks kept as well. */
  method AbsorbInfo(g: Graph, infos: seq<SetInfo>, idx: nat, ghost start: seq<seq<nat>>) returns (ret: seq<SetInfo>)
    requires infos == Infos(g, start)
    ensures ret == Infos(g, Absorb(g, start, [idx]))
  {
    hide *;
    ret := infos;
    var add := SetInfo({idx}, g.Rate(idx));
    ghost var cs, c := start, [idx];
    SeqRateSingle(g, c);
    SetOfSingle(idx);
    while ret != [] && add.feerate.Higher(ret[|ret| - 1].feerate)
      invariant ret == Infos(g, cs) && add == SetInfo(SetOf(c), g.SeqRate(c))
      invariant Absorb(g, cs, c) == Absorb(g, start, [idx])
      decreases |ret|
    {
      var last := ret[|ret| - 1];
      assert last == SetInfo(SetOf(cs[|cs| - 1]), g.SeqRate(cs[|cs| - 1]));
      AbsorbStep(g, cs, c);
      add := SetInfo(last.transactions + add.transactions, add.feerate.Plus(last.feerate));
      ret := ret[..|ret| - 1];
      cs, c := cs[..|cs| - 1], cs[|cs| - 1] + c;
    }
    AbsorbEnd(g, cs, c);
    ret := ret + [add];
  }

  // ---------- restricting a list to a set ----------

  ghost function Keep(l: seq<nat>, s: set<nat>): seq<nat> {
    if l == [] then [] else if l[0] in s then [l[0]] + Keep(l[1..], s) else Keep(l[1..], s)
  }

  lemma {:induction false} KeepConcat(a: seq<nat>, b: seq<nat>, s: set<nat>)
    ensures Keep(a + b, s) == Keep(a, s) + Keep(b, s)
  {
    if a == [] {
      assert a + b == b;
    } else {
      assert (a + b)[1..] == a[1..] + b;
      KeepConcat(a[1..], b, s);
    }
  }

  lemma {:induction false} KeepProps(l: seq<nat>, s: set<nat>)
    ensures SetOf(Keep(l, s)) == SetOf(l) * s && |Keep(l, s)| <= |l|
    ensures Distinct(l) ==> Distinct(Keep(l, s))
    ensures SetOf(l) <= s ==> Keep(l, s) == l
    ensures SetOf(l) !! s ==> Keep(l, s) == []
  {
    if l != [] {
      var t := l[1..];
      KeepProps(t, s);
      SetOfCons(l);
      assert Distinct(l) ==> Distinct(t) && l[0] !in SetOf(t);
      assert l == [l[0]] + t;
      if l[0] in s {
        SetOfConcat([l[0]], Keep(t, s));
        DistinctConcat([l[0]], Keep(t, s));
      }
    }
  }

  lemma {:induction false} KeepKeep(l: seq<nat>, s: set<nat>, t: set<nat>)
    ensures Keep(Keep(l, s), t) == Keep(l, s * t)
  {
    if l != [] {
      KeepKeep(l[1..], s, t);
      if l[0] in s { KeepConcat([l[0]], Keep(l[1..], s), t); }
    }
  }

  /** A linearization with a closed set taken out linearizes the rest. */
  lemma {:induction false} KeepLinearizes(g: Graph, todo: set<nat>, l: seq<nat>, left: set<nat>)
    requires g.Linearizes(todo, l) && left <= todo
    ensures g.Linearizes(left, Keep(l, left))
  {
    KeepProps(l, left);
    var r := Keep(l, left);
    forall k | 0 <= k <= |r| ensures g.Closed(left, SetOf(r[..k])) {
      var m := KeepPrefix(l, left, k);
      KeepProps(l[..m], left);
      assert g.Closed(todo, SetOf(l[..m]));
      assert SetOf(r[..k]) == SetOf(l[..m]) * left;
    }
  }

  /** Every prefix of a restricted list is a restricted prefix. */
  lemma {:induction false} KeepPrefix(l: seq<nat>, s: set<nat>, k: nat) returns (m: nat)
    requires k <= |Keep(l, s)|
    ensures m <= |l| && Keep(l, s)[..k] == Keep(l[..m], s)
  {
    if k == 0 {
      m := 0;
    } else {
      var step := if l[0] in s then 1 else 0;
      var i := KeepPrefix(l[1..], s, k - step);
      m := i + 1;
      assert l[..m] == [l[0]] + l[1..][..i];
      assert l[..m][1..] == l[1..][..i];
    }
  }

  /** Dropping the first |c| entries of a list of which c is the first part still to do drops
      nothing that is left. */
  lemma {:induction false} SkipDone(lin: seq<nat>, todo: set<nat>, c: seq<nat>)
    requires c <= Keep(lin, todo) && Distinct(lin)
    ensures |c| <= |lin|
    ensures Keep(lin[|c|..], todo - SetOf(c)) == Keep(lin, todo - SetOf(c)) == Keep(lin, todo)[|c|..]
  {
    hide *;
    var r, left, n := Keep(lin, todo), todo - SetOf(c), |c|;
    KeepProps(lin, todo);
    KeepKeep(lin, todo, left);
    assert todo * left == left;
    assert r == c + r[n..];
    KeepAfter(c, r[n..], todo);
    var head := lin[..n];
    assert lin == head + lin[n..];
    HeadIsDone(head, lin[n..], todo, c);
    KeepConcat(head, lin[n..], left);
    KeepProps(head, left);
  }

  /** The first |c| positions of a list hold nothing of `todo` outside c, when c starts its
      restriction to `todo`. */
  lemma {:induction false} HeadIsDone(head: seq<nat>, rest: seq<nat>, todo: set<nat>, c: seq<nat>)
    requires |head| == |c| && c <= Keep(head + rest, todo)
    ensures SetOf(head) !! todo - SetOf(c)
  {
    hide Keep;
    KeepConcat(head, rest, todo);
    KeepProps(head, todo);
    assert Keep(head, todo) <= c;
    forall x | x in SetOf(head) && x in todo ensures x in SetOf(c) { assert x in SetOf(Keep(head, todo)); }
  }

  lemma {:induction false} KeepAfter(c: seq<nat>, d: seq<nat>, todo: set<nat>)
    requires Distinct(c + d) && SetOf(c + d) <= todo
    ensures Keep(c + d, todo - SetOf(c)) == d
  {
    var left := todo - SetOf(c);
    DistinctConcat(c, d);
    SetOfConcat(c, d);
    KeepConcat(c, d, left);
    KeepProps(c, left);
    KeepProps(d, left);
  }

  // ---------- LinearizationChunking ----------

  /** Transactions of the first j chunks. */
  ghost function PrefixSet(cs: seq<seq<nat>>, j: nat): set<nat>
    requires j <= |cs|
  {
    SetOf(Flatten(cs[..j]))
  }

  /** `s` is the shortest intersection of `t` with a prefix of the chunks whose feerate is not
      below that of `t`. */
  ghost predicate Intersection(g: Graph, cs: seq<seq<nat>>, t: set<nat>, s: set<nat>) {
    exists j :: 0 <= j <= |cs| && IntersectionAt(g, cs, t, s, j)
  }

  ghost predicate IntersectionAt(g: Graph, cs: seq<seq<nat>>, t: set<nat>, s: set<nat>, j: nat)
    requires j <= |cs|
  {
    && s == t * PrefixSet(cs, j)
    && !g.SetRate(s).Lower(g.SetRate(t))
    && (t != {} ==> s != {})
    && NoneBefore(g, cs, t, j)
  }

  ghost predicate NoneBefore(g: Graph, cs: seq<seq<nat>>, t: set<nat>, j: nat)
    requires j <= |cs|
  {
    forall i :: 0 <= i < j ==> t * PrefixSet(cs, i) == {} || g.SetRate(t * PrefixSet(cs, i)).Lower(g.SetRate(t))
  }

  lemma {:induction false} PrefixSetStep(cs: seq<seq<nat>>, j: nat)
    requires j < |cs|
    ensures PrefixSet(cs, j + 1) == PrefixSet(cs, j) + SetOf(cs[j])
    ensures Distinct(Flatten(cs)) ==> PrefixSet(cs, j) !! SetOf(cs[j])
  {
    assert cs[..j + 1] == cs[..j] + [cs[j]];
    FlattenSnoc(cs[..j], cs[j]);
    SetOfConcat(Flatten(cs[..j]), cs[j]);
    FlattenMember(cs, j);
    DistinctConcat(Flatten(cs[..j]), cs[j]);
    DistinctConcat(Flatten(cs[..j]) + cs[j], Flatten(cs[j + 1..]));
  }

  /** The chunks of the part of a linearization that is still to do. */
  method ChunkInfos(g: Graph, lin: seq<nat>, todo: set<nat>) returns (chunks: seq<SetInfo>)
    ensures chunks == Infos(g, Chunks(g, Keep(lin, todo)))
  {
    chunks := [];
    var k := 0;
    assert Keep(lin[..0], todo) == [];
    while k < |lin|
      invariant k <= |lin|
      invariant chunks == Infos(g, Chunks(g, Keep(lin[..k], todo)))
    {
      KeepNext(lin, k, todo);
      if lin[k] in todo {
        chunks := AbsorbInfo(g, chunks, lin[k], Chunks(g, Keep(lin[..k], todo)));
        ChunksSnoc(g, Keep(lin[..k], todo), lin[k]);
      }
      k := k + 1;
    }
    assert lin[..k] == lin;
  }

  class LinearizationChunking {
    const g: Graph
    var linearization: seq<nat>
    var chunks: seq<SetInfo>
    var chunksSkip: nat
    var todo: set<nat>

    /** What remains of the linearization. */
    ghost function Rest(): seq<nat> reads this { Keep(linearization, todo) }

    ghost predicate Sane() reads this {
      g.Sized() && Distinct(linearization) && todo <= SetOf(linearization) <= g.used
    }

    /** The chunks not yet skipped are the chunks of what remains. */
    ghost predicate Valid() reads this {
      Sane() && chunksSkip <= |chunks| && chunks[chunksSkip..] == Infos(g, Chunks(g, Rest()))
    }

    function NumChunksLeft(): int reads this { |chunks| - chunksSkip }

    function GetChunk(n: nat): SetInfo
      requires n + chunksSkip < |chunks|
      reads this
    {
      chunks[n + chunksSkip]
    }

    /** Chunk what is left, skipping the done front. */
    method BuildChunks()
      requires Sane() && chunks == [] && chunksSkip == 0
      modifies this
      ensures Valid() && todo == old(todo) && Rest() == old(Rest())
    {
      while linearization != [] && linearization[0] !in todo
        invariant Sane() && todo == old(todo) && Rest() == old(Rest())
        invariant chunks == [] && chunksSkip == 0
        decreases |linearization|
      {
        SetOfCons(linearization);
        linearization := linearization[1..];
      }
      chunks := ChunkInfos(g, linearization, todo);
    }

    constructor (graph: Graph, lin: seq<nat>)
      requires graph.Sized() && Distinct(lin) && SetOf(lin) <= graph.used
      ensures Valid() && g == graph && todo == SetOf(lin) && Rest() == lin
    {
      g := graph;
      linearization := lin;
      chunks := [];
      chunksSkip := 0;
      todo := set i | i in lin;
      new;
      KeepProps(lin, todo);
      BuildChunks();
    }

    /** Drop `subset` from what is left and chunk the rest again. */
    method MarkDone(subset: set<nat>)
      requires Valid() && subset != {} && subset <= todo
      modifies this
      ensures Valid() && todo == old(todo) - subset
      ensures Rest() == Keep(old(Rest()), todo)
    {
      ghost var r, before := Rest(), todo;
      RestAfter(g, linearization, todo, subset);
      todo := todo - subset;
      if GetChunk(0).transactions == subset {
        FirstChunkDone(g, linearization, before, subset);
        chunksSkip := chunksSkip + 1;
        linearization := linearization[|subset|..];
        assert chunks[chunksSkip..] == Infos(g, Chunks(g, r))[1..];
      } else {
        chunks := [];
        chunksSkip := 0;
        BuildChunks();
      }
    }

    method IntersectPrefixes(subset: SetInfo) returns (r: SetInfo)
      requires Valid() && subset.transactions <= todo && Accurate(g, subset)
      ensures Accurate(g, r) && Intersection(g, Chunks(g, Rest()), subset.transactions, r.transactions)
    {
      ghost var cs := Chunks(g, Rest());
      ChunksOfRest(g, linearization, todo);
      var accumulator := SetInfo({}, EMPTY);
      var i := 0;
      ScanStart(g, cs, subset);
      while i < NumChunksLeft()
        invariant i <= |cs| == NumChunksLeft()
        invariant Scanned(g, cs, subset, i, accumulator)
      {
        hide *;
        assert GetChunk(i) == chunks[chunksSkip..][i];
        var toAdd := GetChunk(i).transactions * subset.transactions;
        ScanStep(g, cs, subset, i, accumulator, toAdd);
        if toAdd != {} {
          accumulator := accumulator.(transactions := accumulator.transactions + toAdd);
          if accumulator.transactions == subset.transactions {
            return subset;
          }
          var rate := DepGraphs.FeeRateOf(g, toAdd);
          accumulator := accumulator.(feerate := accumulator.feerate.Plus(rate));
          if !accumulator.feerate.Lower(subset.feerate) {
            return accumulator;
          }
        }
        i := i + 1;
      }
      ScanEnd(g, cs, subset, accumulator);
      r := subset;
    }
  }

  /** The intersection of `subset` with the first i chunks, when no shorter one will do. */
  ghost predicate Scanned(g: Graph, cs: seq<seq<nat>>, subset: SetInfo, i: nat, acc: SetInfo) {
    && i <= |cs|
    && acc.transactions == subset.transactions * PrefixSet(cs, i) && Accurate(g, acc)
    && (acc.transactions == {} || acc.feerate.Lower(subset.feerate))
    && NoneBefore(g, cs, subset.transactions, i)
  }

  lemma {:induction false} ScanStart(g: Graph, cs: seq<seq<nat>>, subset: SetInfo)
    ensures Scanned(g, cs, subset, 0, SetInfo({}, EMPTY))
  {
    assert cs[..0] == [];
  }

  lemma {:induction false} NoneBeforeNext(g: Graph, cs: seq<seq<nat>>, t: set<nat>, i: nat)
    requires i < |cs| && NoneBefore(g, cs, t, i)
    requires t * PrefixSet(cs, i) == {} || g.SetRate(t * PrefixSet(cs, i)).Lower(g.SetRate(t))
    ensures NoneBefore(g, cs, t, i + 1)
  {
    hide PrefixSet, Graph.SetRate, FeeFrac.Lower;
  }

  lemma {:induction false} ScanStep(g: Graph, cs: seq<seq<nat>>, subset: SetInfo, i: nat, acc: SetInfo, toAdd: set<nat>)
    requires i < |cs| && Distinct(Flatten(cs)) && Accurate(g, subset) && Scanned(g, cs, subset, i, acc)
    requires toAdd == SetOf(cs[i]) * subset.transactions
    ensures var next := SetInfo(acc.transactions + toAdd, acc.feerate.Plus(g.SetRate(toAdd)));
            && Accurate(g, next)
            && (toAdd == {} ==> Scanned(g, cs, subset, i + 1, acc))
            && (next.feerate.Lower(subset.feerate) ==> Scanned(g, cs, subset, i + 1, next))
            && (toAdd != {} && next.transactions == subset.transactions ==>
                  Intersection(g, cs, subset.transactions, subset.transactions))
            && (toAdd != {} && !next.feerate.Lower(subset.feerate) ==>
                  Intersection(g, cs, subset.transactions, next.transactions))
  {
    hide Graph.SetRate, PrefixSet, Distinct;
    var t := subset.transactions;
    var next := SetInfo(acc.transactions + toAdd, acc.feerate.Plus(g.SetRate(toAdd)));
    PrefixSetStep(cs, i);
    assert t * PrefixSet(cs, i + 1) == t * PrefixSet(cs, i) + toAdd;
    SetRateUnion(g, acc.transactions, toAdd);
    NoneBeforeNext(g, cs, t, i);
    if toAdd != {} && next.transactions == t {
      assert IntersectionAt(g, cs, t, t, i + 1);
    }
    if toAdd != {} && !next.feerate.Lower(subset.feerate) {
      assert IntersectionAt(g, cs, t, next.transactions, i + 1);
    }
  }

  lemma {:induction false} ScanEnd(g: Graph, cs: seq<seq<nat>>, subset: SetInfo, acc: SetInfo)
    requires Accurate(g, subset) && Scanned(g, cs, subset, |cs|, acc) && subset.transactions <= SetOf(Flatten(cs))
    ensures Intersection(g, cs, subset.transactions, subset.transactions)
  {
    assert cs[..|cs|] == cs;
    assert IntersectionAt(g, cs, subset.transactions, subset.transactions, |cs|);
  }

  lemma {:induction false} ChunksSnoc(g: Graph, l: seq<nat>, x: nat)
    ensures Chunks(g, l + [x]) == Absorb(g, Chunks(g, l), [x])
  {
    var m := l + [x];
    assert m[..|m| - 1] == l && m[|m| - 1] == x;
  }

  lemma {:induction false} KeepNext(l: seq<nat>, k: nat, s: set<nat>)
    requires k < |l|
    ensures Keep(l[..k + 1], s) == if l[k] in s then Keep(l[..k], s) + [l[k]] else Keep(l[..k], s)
  {
    assert l[..k + 1] == l[..k] + [l[k]];
    KeepConcat(l[..k], [l[k]], s);
    assert Keep([l[k]], s) == if l[k] in s then [l[k]] else [];
  }

  lemma {:induction false} ChunksOfRest(g: Graph, lin: seq<nat>, todo: set<nat>)
    requires g.Sized() && Distinct(lin) && todo <= SetOf(lin) <= g.used
    ensures var r := Keep(lin, todo); Distinct(r) && SetOf(r) == todo && IsChunking(g, r, Chunks(g, r))
  {
    KeepProps(lin, todo);
    ChunksAreChunking(g, Keep(lin, todo));
  }

  lemma {:induction false} RestAfter(g: Graph, lin: seq<nat>, todo: set<nat>, subset: set<nat>)
    requires g.Sized() && Distinct(lin) && todo <= SetOf(lin) <= g.used && subset <= todo && subset != {}
    ensures Keep(lin, todo - subset) == Keep(Keep(lin, todo), todo - subset)
    ensures Chunks(g, Keep(lin, todo)) != []
  {
    KeepKeep(lin, todo, todo - subset);
    assert todo * (todo - subset) == todo - subset;
    KeepProps(lin, todo);
    var x :| x in subset;
    assert x in SetOf(Keep(lin, todo));
    ChunksRest(g, Keep(lin, todo));
  }

  lemma {:induction false} TailHasRest(lin: seq<nat>, n: nat, left: set<nat>)
    requires n <= |lin| && Distinct(lin) && left <= SetOf(lin)
    requires Keep(lin[n..], left) == Keep(lin, left)
    ensures Distinct(lin[n..]) && left <= SetOf(lin[n..]) <= SetOf(lin)
  {
    var tail := lin[n..];
    KeepProps(tail, left);
    KeepProps(lin, left);
    forall x | x in left ensures x in SetOf(tail) { assert x in SetOf(Keep(tail, left)); }
  }

  /** Skipping the first chunk and dropping as many positions leaves a valid chunking. */
  lemma {:induction false} FirstChunkDone(g: Graph, lin: seq<nat>, todo: set<nat>, subset: set<nat>)
    requires g.Sized() && Distinct(lin) && todo <= SetOf(lin) <= g.used && subset <= todo && subset != {}
    requires Chunks(g, Keep(lin, todo)) != [] && SetOf(Chunks(g, Keep(lin, todo))[0]) == subset
    ensures |subset| <= |lin|
    ensures Distinct(lin[|subset|..])
    ensures todo - subset <= SetOf(lin[|subset|..]) <= g.used
    ensures Keep(lin[|subset|..], todo - subset) == Keep(lin, todo - subset)
    ensures Infos(g, Chunks(g, Keep(lin, todo - subset))) == Infos(g, Chunks(g, Keep(lin, todo)))[1..]
  {
    hide *;
    var r := Keep(lin, todo);
    KeepProps(lin, todo);
    assert SetOf(lin) * todo == todo;
    SomeLeft(r, subset);
    ChunksRest(g, r);
    var cs := Chunks(g, r);
    var c := cs[0];
    DistinctPrefix(c, r);
    DistinctSize(c);
    SkipDone(lin, todo, c);
    InfosTail(g, cs);
    TailHasRest(lin, |c|, todo - subset);
  }

  lemma {:induction false} SomeLeft(r: seq<nat>, subset: set<nat>)
    requires subset <= SetOf(r) && subset != {}
    ensures r != []
  {
    var x :| x in subset;
    assert x in SetOf(r);
  }

  lemma {:induction false} InfosTail(g: Graph, cs: seq<seq<nat>>)
    requires cs != []
    ensures Infos(g, cs[1..]) == Infos(g, cs)[1..]
  {
    hide Graph.SeqRate, SetOf;
  }
}
