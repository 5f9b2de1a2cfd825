/** Finding the best remaining ancestor set (src/cluster_linearize.h:519-619). */
module AncestorFinders {
  import opened FeeFracs
  import opened Sets
  import opened Graphs
  import opened Chunkings
  import DepGraphs

  /** Every stored feerate is that of the remaining ancestors. */
  ghost predicate RatesOfAncestors(g: Graph, rates: seq<FeeFrac>, among: set<nat>, todo: set<nat>) {
    && |rates| == |g.entries|
    && forall i :: i in among ==> i < |rates| && rates[i] == g.SetRate(g.Anc(i) * todo)
  }

  /** `t` is the ancestor set of some remaining transaction, and none is better. */
  ghost predicate BestAncestorSet(g: Graph, todo: set<nat>, t: set<nat>) {
    && (exists i :: i in todo && t == g.Anc(i) * todo)
    && forall j :: j in todo ==> !g.SetRate(g.Anc(j) * todo).Better(g.SetRate(t))
  }

  /** Feerate of all ancestors of i, reusing the one stored for its first ancestor. */
  method AncestorRate(g: Graph, rates: seq<FeeFrac>, i: nat, ghost done: set<nat>) returns (rate: FeeFrac)
    requires g.Valid() && i in g.used && RatesOfAncestors(g, rates, done, g.used)
    requires forall x :: x in g.used && x < i ==> x in done
    ensures rate == g.SetRate(g.Anc(i) * g.used)
  {
    assert i in g.Anc(i) && g.Anc(i) * g.used == g.Anc(i);
    var ancToAdd := g.Anc(i);
    rate := EMPTY;
    var first := First(ancToAdd);
    if first < i {
      rate := rates[first];
      ancToAdd := ancToAdd - g.Anc(first);
      assert g.Anc(first) <= g.Anc(i) && g.Anc(first) * g.used == g.Anc(first);
      SetRateSplit(g, g.Anc(i), g.Anc(first));
      assert g.Anc(i) * g.Anc(first) == g.Anc(first);
    }
    var more := DepGraphs.FeeRateOf(g, ancToAdd);
    rate := rate.Plus(more);
  }

  method AllAncestorRates(g: Graph) returns (rates: seq<FeeFrac>)
    requires g.Valid()
    ensures RatesOfAncestors(g, rates, g.used, g.used)
  {
    hide Graph.SetRate;
    rates := seq(|g.entries|, _ => EMPTY);
    var rest := g.used;
    while rest != {}
      invariant rest <= g.used
      invariant RatesOfAncestors(g, rates, g.used - rest, g.used)
      invariant forall x, y :: x in rest && y in g.used - rest ==> y < x
    {
      var i := First(rest);
      assert forall x :: x in rest - {i} ==> i < x;
      var rate := AncestorRate(g, rates, i, g.used - rest);
      rates := rates[i := rate];
      assert g.used - (rest - {i}) == g.used - rest + {i};
      rest := rest - {i};
    }
    assert g.used - rest == g.used;
  }

  method Subtract(rates: seq<FeeFrac>, rate: FeeFrac, from: set<nat>) returns (r: seq<FeeFrac>)
    requires forall j :: j in from ==> j < |rates|
    ensures |r| == |rates|
    ensures forall j :: 0 <= j < |rates| ==> r[j] == if j in from then rates[j].Minus(rate) else rates[j]
  {
    r := rates;
    var rest := from;
    while rest != {}
      invariant rest <= from && |r| == |rates|
      invariant forall j :: 0 <= j < |rates| ==> r[j] == if j in from - rest then rates[j].Minus(rate) else rates[j]
    {
      var j := First(rest);
      r := r[j := r[j].Minus(rate)];
      rest := rest - {j};
    }
  }

  lemma {:induction false} SubtractOne(g: Graph, j: nat, gone: set<nat>, i: nat)
    requires i !in gone
    ensures g.SetRate(g.Anc(j) * (gone + {i})) ==
            if i in g.Anc(j) then g.SetRate(g.Anc(j) * gone).Plus(g.Rate(i)) else g.SetRate(g.Anc(j) * gone)
  {
    hide *;
    if i in g.Anc(j) {
      SetRateAdd(g, g.Anc(j) * gone, i);
      assert g.Anc(j) * (gone + {i}) == g.Anc(j) * gone + {i};
    } else {
      assert g.Anc(j) * (gone + {i}) == g.Anc(j) * gone;
    }
  }

  lemma {:induction false} NothingGone(g: Graph, todo: set<nat>, select: set<nat>)
    ensures forall j: nat :: g.SetRate(g.Anc(j) * (select - select)) == EMPTY
  {
    forall j: nat ensures g.SetRate(g.Anc(j) * (select - select)) == EMPTY {
      assert g.Anc(j) * (select - select) == {};
    }
  }

  lemma {:induction false} StillToDo(g: Graph, j: nat, todo: set<nat>, select: set<nat>)
    requires select <= todo
    ensures g.SetRate(g.Anc(j) * todo).Minus(g.SetRate(g.Anc(j) * select)) == g.SetRate(g.Anc(j) * (todo - select))
  {
    hide Graph.SetRate, Graph.Anc;
    var a := g.Anc(j);
    assert a * todo * select == a * select;
    assert a * todo - select == a * (todo - select);
    SetRateSplit(g, a * todo, select);
  }

  /** Take every transaction of `select` out of the rates of its remaining descendants. */
  method SubtractAll(g: Graph, rates: seq<FeeFrac>, todo: set<nat>, select: set<nat>) returns (r: seq<FeeFrac>)
    requires g.Valid() && select <= g.used && todo <= g.used && |rates| == |g.entries|
    ensures |r| == |rates|
    ensures forall j :: j in todo ==> j < |rates| && r[j] == rates[j].Minus(g.SetRate(g.Anc(j) * select))
  {
    r := rates;
    var rest := select;
    NothingGone(g, todo, select);
    while rest != {}
      invariant rest <= select && |r| == |rates|
      invariant forall j :: j in todo ==> j < |rates| && r[j] == rates[j].Minus(g.SetRate(g.Anc(j) * (select - rest)))
    {
      var i := First(rest);
      ghost var was := r;
      r := Subtract(r, g.Rate(i), g.Desc(i) * todo);
      forall j | j in todo ensures r[j] == rates[j].Minus(g.SetRate(g.Anc(j) * (select - (rest - {i})))) {
        assert j in g.Desc(i) <==> i in g.Anc(j);
        SubtractOne(g, j, select - rest, i);
        assert select - (rest - {i}) == select - rest + {i};
        assert was[j] == rates[j].Minus(g.SetRate(g.Anc(j) * (select - rest)));
      }
      rest := rest - {i};
    }
    assert select - rest == select;
  }

  class AncestorCandidateFinder {
    const g: Graph
    var todo: set<nat>
    var rates: seq<FeeFrac>

    ghost predicate Valid() reads this {
      g.Cluster() && todo <= g.used && RatesOfAncestors(g, rates, todo, todo)
    }

    constructor (graph: Graph)
      requires graph.Cluster()
      ensures Valid() && g == graph && todo == graph.used
    {
      g := graph;
      todo := graph.used;
      rates := [];
      new;
      rates := AllAncestorRates(g);
    }

    /** Drop `select`, keeping the rate of every remaining ancestor set exact. */
    method MarkDone(select: set<nat>)
      requires Valid() && select != {} && select <= todo
      modifies this
      ensures Valid() && todo == old(todo) - select
    {
      todo := todo - select;
      rates := SubtractAll(g, rates, todo, select);
      forall j | j in todo ensures rates[j] == g.SetRate(g.Anc(j) * todo) {
        StillToDo(g, j, old(todo), select);
      }
    }

    predicate AllDone() reads this { todo == {} }

    /** The best (highest feerate, then smallest) remaining ancestor set. */
    method FindCandidateSet() returns (r: SetInfo)
      requires Valid() && todo != {}
      ensures Accurate(g, r) && BestAncestorSet(g, todo, r.transactions)
      ensures r.transactions != {} && r.transactions <= todo && g.Closed(todo, r.transactions)
    {
      forall i | i in todo ensures rates[i].size > 0 {
        assert i in g.Anc(i) * todo;
        SetRateSize(g, g.Anc(i) * todo);
      }
      var best := BestIndex(rates, todo);
      AncestorsClosed(g, todo, best);
      r := SetInfo(g.Anc(best) * todo, rates[best]);
      assert best in r.transactions;
    }
  }

  lemma BetterChain(a: FeeFrac, b: FeeFrac, c: FeeFrac)
    requires a.size > 0 && b.size > 0 && c.size > 0
    requires b.Better(c) && !a.Better(c)
    ensures !a.Better(b)
  {
    if a.Better(b) { BetterTrans(a, b, c); }
  }

  lemma NotBetterSelf()
    ensures forall a: FeeFrac :: !a.Better(a)
  {
  }

  /** Index of the best rate; the first one in case of a tie. */
  method BestIndex(rates: seq<FeeFrac>, todo: set<nat>) returns (best: nat)
    requires todo != {} && forall i :: i in todo ==> i < |rates| && rates[i].size > 0
    ensures best in todo && forall j :: j in todo ==> !rates[j].Better(rates[best])
  {
    NotBetterSelf();
    hide *;
    best := First(todo);
    var rest := todo - {best};
    while rest != {}
      invariant rest <= todo && best in todo - rest
      invariant forall j :: j in todo - rest ==> !rates[j].Better(rates[best])
    {
      var i := First(rest);
      if rates[i].Better(rates[best]) {
        forall j | j in todo - rest ensures !rates[j].Better(rates[i]) {
          BetterChain(rates[j], rates[i], rates[best]);
        }
        best := i;
      }
      rest := rest - {i};
    }
  }
}
