/** The branch-and-bound search of SearchCandidateFinder::FindCandidateSet, on the internal graph
    (src/cluster_linearize.h:717-986). */
module Searches {
  import opened FeeFracs
  import opened Powers
  import opened Sets
  import opened Graphs
  import opened Chunkings
  import opened Improvements
  import opened SearchBounds
  import DepGraphs

  /** inc: transactions definitely included; und: undecided ones; pot: an upper bound on what the
      item can lead to, when inc is not empty. */
  datatype WorkItem = WorkItem(inc: SetInfo, und: set<nat>, pot: FeeFrac)

  /** inc and inc + und are topologically valid and disjoint. */
  ghost predicate Branch(h: Graph, todo: set<nat>, inc: SetInfo, und: set<nat>) {
    && Accurate(h, inc) && h.Closed(todo, inc.transactions)
    && inc.transactions !! und && h.Closed(todo, inc.transactions + und)
  }

  ghost predicate ItemOk(h: Graph, todo: set<nat>, best: FeeFrac, it: WorkItem) {
    && Branch(h, todo, it.inc, it.und) && it.und != {}
    && (it.inc.transactions == {} ==> it.pot == EMPTY)
    && (it.inc.transactions != {} ==>
          && it.pot.size > 0 && !it.inc.feerate.Better(best)
          && PotCaps(h, todo, it.inc.transactions, it.und, it.pot, best))
  }

  ghost predicate ItemsOk(h: Graph, todo: set<nat>, best: FeeFrac, queue: seq<WorkItem>) {
    forall it {:trigger ItemOk(h, todo, best, it)} :: it in queue ==> ItemOk(h, todo, best, it)
  }

  ghost predicate Candidate(h: Graph, todo: set<nat>, best: SetInfo) {
    Accurate(h, best) && best.transactions != {} && h.Closed(todo, best.transactions)
  }

  /** A closed set that beats `best`. */
  ghost predicate Beats(h: Graph, todo: set<nat>, b: set<nat>, best: FeeFrac) {
    b != {} && h.Closed(todo, b) && h.SetRate(b).Better(best)
  }

  /** The item can still lead to a set at least as good as b. */
  ghost predicate Serves(h: Graph, todo: set<nat>, it: WorkItem, b: set<nat>) {
    exists c {:trigger Compatible(h, todo, it.inc.transactions, it.und, c)} ::
      Compatible(h, todo, it.inc.transactions, it.und, c) && h.SetRate(c).BetterOrEqual(h.SetRate(b))
  }

  ghost predicate Served(h: Graph, todo: set<nat>, queue: seq<WorkItem>, b: set<nat>) {
    exists it {:trigger Serves(h, todo, it, b)} :: it in queue && Serves(h, todo, it, b)
  }

  /** Whatever beats `best` is still represented in the queue. */
  ghost predicate Covered(h: Graph, todo: set<nat>, queue: seq<WorkItem>, best: FeeFrac) {
    forall b {:trigger Served(h, todo, queue, b)} :: Beats(h, todo, b, best) ==> Served(h, todo, queue, b)
  }

  /** Whatever `e` leads to that beats `best` is represented in the items that replace it. */
  ghost predicate Replaced(h: Graph, todo: set<nat>, inc: set<nat>, und: set<nat>, items: seq<WorkItem>, best: FeeFrac) {
    forall b {:trigger Served(h, todo, items, b)} ::
      Compatible(h, todo, inc, und, b) && h.SetRate(b).Better(best) ==> Served(h, todo, items, b)
  }

  lemma {:induction false} ServedMore(h: Graph, todo: set<nat>, items: seq<WorkItem>, more: seq<WorkItem>, b: set<nat>)
    requires Served(h, todo, items, b) && forall it :: it in items ==> it in more
    ensures Served(h, todo, more, b)
  {
  }

  /** One processed item: the rest of the queue and the items that replace it still cover. */
  lemma {:induction false} CoveredStep(h: Graph, todo: set<nat>, queue: seq<WorkItem>, e: WorkItem, rest: seq<WorkItem>,
                                       items: seq<WorkItem>, old_: FeeFrac, best: FeeFrac)
    requires h.Sized() && todo <= h.used && old_.size > 0 && best.size > 0 && best.BetterOrEqual(old_)
    requires Covered(h, todo, queue, old_) && forall it :: it in queue ==> it == e || it in rest
    requires Replaced(h, todo, e.inc.transactions, e.und, items, best)
    ensures Covered(h, todo, rest + items, best)
  {
    forall b | Beats(h, todo, b, best) ensures Served(h, todo, rest + items, b) {
      SetRateSize(h, b);
      Order(old_, best);
      Order(best, old_);
      BetterFrom(h.SetRate(b), best, old_);
      assert Served(h, todo, queue, b);
      var it :| it in queue && Serves(h, todo, it, b);
      if it in rest {
        assert it in rest + items;
      } else {
        var c :| Compatible(h, todo, e.inc.transactions, e.und, c) && h.SetRate(c).BetterOrEqual(h.SetRate(b));
        SetRateSize(h, c);
        BetterTo(h.SetRate(c), h.SetRate(b), best);
        assert Served(h, todo, items, c);
        ServedBetter(h, todo, items, c, b);
        ServedMore(h, todo, items, rest + items, b);
      }
    }
  }

  lemma {:induction false} BetterTo(a: FeeFrac, b: FeeFrac, c: FeeFrac)
    requires a.size > 0 && b.size > 0 && c.size > 0
    requires a.BetterOrEqual(b) && b.Better(c)
    ensures a.Better(c)
  {
    Order(a, b);
    Order(b, a);
    Order(a, c);
    Order(c, a);
    BetterOrEqualTrans(c, a, b);
    BetterOrEqualTrans(b, c, a);
    BetterOrEqualTrans(c, b, a);
    Order(c, b);
  }

  lemma {:induction false} ServedBetter(h: Graph, todo: set<nat>, items: seq<WorkItem>, c: set<nat>, b: set<nat>)
    requires h.Sized() && todo <= h.used && Served(h, todo, items, c)
    requires h.SetRate(c).BetterOrEqual(h.SetRate(b)) && h.SetRate(c).size > 0 && h.SetRate(b).size > 0
    ensures Served(h, todo, items, b)
  {
    var it :| it in items && Serves(h, todo, it, c);
    var d :| Compatible(h, todo, it.inc.transactions, it.und, d) && h.SetRate(d).BetterOrEqual(h.SetRate(c));
    SetRateSize(h, d);
    BetterOrEqualTrans(h.SetRate(d), h.SetRate(c), h.SetRate(b));
    assert Serves(h, todo, it, b);
  }

  lemma {:induction false} ItemsKept(h: Graph, todo: set<nat>, queue: seq<WorkItem>, old_: FeeFrac, best: FeeFrac)
    requires h.Sized() && todo <= h.used && old_.size > 0 && best.size > 0 && best.BetterOrEqual(old_)
    requires ItemsOk(h, todo, old_, queue)
    ensures ItemsOk(h, todo, best, queue)
  {
    forall it | it in queue ensures ItemOk(h, todo, best, it) {
      assert ItemOk(h, todo, old_, it);
      if it.inc.transactions != {} {
        PotCapsKept(h, todo, it.inc.transactions, it.und, it.pot, old_, best);
        SetRateSize(h, it.inc.transactions);
        if it.inc.feerate.Better(best) {
          Order(old_, best);
          BetterFrom(it.inc.feerate, best, old_);
        }
      }
    }
  }

  // ---------- parts of add_fn ----------

  /** Grow pot with improving undecided transactions, in order of feerate, while that helps. */
  method GrowPot(h: Graph, inc: SetInfo, und: set<nat>, imp: set<nat>) returns (pot: SetInfo)
    requires h.Sized() && Sorted(h) && Accurate(h, inc) && inc.transactions + und <= h.used
    requires inc.transactions != {} && inc.transactions !! und
    ensures IsPot(h, inc.transactions, und, imp, pot)
  {
    pot := inc;
    var rest := imp * und;
    while rest != {}
      invariant GrowingPot(h, inc.transactions, und * imp, rest, pot)
      decreases rest
    {
      var pos := First(rest);
      if !h.Rate(pos).Higher(pot.feerate) {
        PotDone(h, inc.transactions, und, imp, rest, pot);
        return;
      }
      PotGrows(h, inc.transactions, und * imp, rest, pot);
      pot := SetInfo(pot.transactions + {pos}, pot.feerate.Plus(h.Rate(pos)));
      rest := rest - {pos};
    }
  }

  ghost predicate GrowingPot(h: Graph, inc: set<nat>, all: set<nat>, rest: set<nat>, pot: SetInfo) {
    && Accurate(h, pot) && rest <= all && all <= h.used && inc <= h.used && inc != {} && inc !! all
    && pot.transactions == inc + (all - rest)
    && (forall a :: a in all - rest ==> h.Rate(a).Higher(pot.feerate))
    && (forall a, r :: a in all - rest && r in rest ==> a < r)
  }

  lemma {:induction false} PotGrows(h: Graph, inc: set<nat>, all: set<nat>, rest: set<nat>, pot: SetInfo)
    requires h.Sized() && Sorted(h) && GrowingPot(h, inc, all, rest, pot) && rest != {}
    requires h.Rate(First(rest)).Higher(pot.feerate)
    ensures var pos := First(rest);
            GrowingPot(h, inc, all, rest - {pos}, SetInfo(pot.transactions + {pos}, pot.feerate.Plus(h.Rate(pos))))
  {
    hide Graph.SetRate;
    var pos := First(rest);
    var next := SetInfo(pot.transactions + {pos}, pot.feerate.Plus(h.Rate(pos)));
    SetRateAdd(h, pot.transactions, pos);
    SetRateSize(h, pot.transactions);
    SetRateSize(h, next.transactions);
    Mediant(pot.feerate, h.Rate(pos));
    Order(h.Rate(pos), pot.feerate);
    Order(next.feerate, h.Rate(pos));
    assert next.transactions == inc + (all - (rest - {pos}));
    forall a | a in all - (rest - {pos}) ensures h.Rate(a).Higher(next.feerate) {
      if a != pos {
        Order(h.Rate(pos), h.Rate(a));
        LowerTrans(next.feerate, h.Rate(pos), h.Rate(a));
        Order(next.feerate, h.Rate(a));
      }
    }
    assert forall r :: r in rest - {pos} ==> pos < r;
  }

  lemma {:induction false} PotDone(h: Graph, inc: set<nat>, und: set<nat>, imp: set<nat>, rest: set<nat>, pot: SetInfo)
    requires h.Sized() && Sorted(h) && GrowingPot(h, inc, und * imp, rest, pot) && rest != {}
    requires !h.Rate(First(rest)).Higher(pot.feerate)
    ensures IsPot(h, inc, und, imp, pot)
  {
    var pos := First(rest);
    SetRateSize(h, pot.transactions);
    forall r | r in und * imp - pot.transactions ensures !h.Rate(r).Higher(pot.feerate) {
      assert r in rest;
      if r != pos {
        Order(h.Rate(r), h.Rate(pos));
        NotHigherTrans(h.Rate(r), h.Rate(pos), pot.feerate);
      }
    }
  }

  /** The largest topologically valid part of pot that holds inc. */
  method JumpAhead(h: Graph, todo: set<nat>, inc: set<nat>, pot: set<nat>) returns (jump: set<nat>)
    requires h.Valid() && todo <= h.used && inc <= pot <= todo && h.Closed(todo, inc)
    ensures inc <= jump <= pot && h.Closed(todo, jump)
    ensures forall s :: h.Closed(todo, s) && s <= pot ==> s <= jump
  {
    jump := inc;
    var rest := pot - inc;
    while rest != {}
      invariant rest <= pot - inc && inc <= jump <= pot && h.Closed(todo, jump)
      invariant forall x :: x in pot - inc - rest && h.Anc(x) * todo <= pot ==> x in jump
    {
      var pos := First(rest);
      var ancTodo := h.Anc(pos) * todo;
      if ancTodo <= pot {
        AncestorsClosed(h, todo, pos);
        ClosedUnion(h, todo, jump, ancTodo);
        jump := jump + ancTodo;
      }
      rest := rest - {pos};
    }
    forall s | h.Closed(todo, s) && s <= pot ensures s <= jump {
      forall x | x in s ensures x in jump {
        assert h.Anc(x) * todo <= s;
      }
    }
  }

  /** Drop from imp the transactions that no longer improve. */
  method ShrinkImproving(h: Graph, imp: set<nat>, best: FeeFrac) returns (r: set<nat>)
    requires h.Sized() && Sorted(h) && imp <= h.used && best.size > 0
    ensures r == set x | x in imp && h.Rate(x).Higher(best)
  {
    r := imp;
    while r != {}
      invariant r <= imp
      invariant forall x :: x in imp - r ==> !h.Rate(x).Higher(best)
    {
      var check := Last(r);
      if h.Rate(check).Higher(best) {
        forall x | x in r ensures h.Rate(x).Higher(best) { EarlierHigher(h, x, check, best); }
        return;
      }
      r := r - {check};
    }
  }

  lemma {:induction false} EarlierHigher(h: Graph, x: nat, y: nat, best: FeeFrac)
    requires h.Sized() && Sorted(h) && x in h.used && y in h.used && x <= y && best.size > 0
    requires h.Rate(y).Higher(best)
    ensures h.Rate(x).Higher(best)
  {
    if x < y {
      Order(h.Rate(y), h.Rate(x));
      Order(h.Rate(y), best);
      Order(h.Rate(x), best);
      LowerTrans(best, h.Rate(y), h.Rate(x));
    }
  }

  // ---------- parts of split_fn ----------

  /** {max, min} of the undecided counts left after including or excluding t. */
  function SplitCounts(h: Graph, und: set<nat>, t: nat): (int, int) {
    var i, e := |und - h.Anc(t)|, |und - h.Desc(t)|;
    if i < e then (e, i) else (i, e)
  }

  predicate CountsLess(a: (int, int), b: (int, int)) { a.0 < b.0 || (a.0 == b.0 && a.1 < b.1) }

  /** No transaction of s would make a better split than `split`. */
  ghost predicate NoneLess(h: Graph, und: set<nat>, s: set<nat>, split: nat) {
    forall t :: t in s ==> !CountsLess(SplitCounts(h, und, t), SplitCounts(h, und, split))
  }

  /** Splits on an undecided ancestor of the first undecided transaction, where none splits better. */
  method ChooseSplit(h: Graph, und: set<nat>) returns (split: nat)
    requires h.Valid() && und <= h.used && und != {}
    ensures split in und * h.Anc(First(und)) && NoneLess(h, und, und * h.Anc(First(und)), split)
  {
    assert First(und) in und * h.Anc(First(und));
    hide *;
    split := BestSplit(h, und, und * h.Anc(First(und)));
  }

  method BestSplit(h: Graph, und: set<nat>, select: set<nat>) returns (split: nat)
    requires select != {}
    ensures split in select && NoneLess(h, und, select, split)
  {
    hide *;
    split := First(select);
    var rest := select - {split};
    ghost var seen := {split};
    NoneLessOne(h, und, split);
    while rest != {}
      invariant seen + rest == select && split in seen && NoneLess(h, und, seen, split)
    {
      var t := First(rest);
      NoneLessMore(h, und, seen, split, t);
      if CountsLess(SplitCounts(h, und, t), SplitCounts(h, und, split)) {
        split := t;
      }
      rest, seen := rest - {t}, seen + {t};
    }
    assert seen == select;
  }

  lemma {:induction false} NoneLessOne(h: Graph, und: set<nat>, split: nat)
    ensures NoneLess(h, und, {split}, split)
  {
    hide SplitCounts;
  }

  lemma {:induction false} NoneLessMore(h: Graph, und: set<nat>, s: set<nat>, split: nat, t: nat)
    requires NoneLess(h, und, s, split)
    ensures NoneLess(h, und, s + {t}, if CountsLess(SplitCounts(h, und, t), SplitCounts(h, und, split)) then t else split)
  {
    hide SplitCounts;
  }

  /** Excluding a transaction with its descendants, or including it with its ancestors, gives
      smaller branches that together hold every compatible set. */
  lemma {:induction false} SplitBranches(h: Graph, todo: set<nat>, inc: SetInfo, und: set<nat>, split: nat)
    requires h.Valid() && h.Sized() && todo <= h.used && Branch(h, todo, inc, und) && split in und
    ensures Branch(h, todo, inc, und - h.Desc(split)) && und - h.Desc(split) < und
    ensures var anc := h.Anc(split) * todo; und - anc < und && split in anc
    ensures var anc := h.Anc(split) * todo; var rate := inc.feerate.Plus(h.SetRate(anc - inc.transactions));
            Branch(h, todo, SetInfo(inc.transactions + anc, rate), und - anc)
    ensures forall b :: Compatible(h, todo, inc.transactions, und, b) ==>
              || Compatible(h, todo, inc.transactions, und - h.Desc(split), b)
              || Compatible(h, todo, inc.transactions + h.Anc(split) * todo, und - h.Anc(split) * todo, b)
  {
    var anc, desc := h.Anc(split) * todo, h.Desc(split);
    assert split in desc && split in anc;
    AncestorsClosed(h, todo, split);
    ClosedUnion(h, todo, inc.transactions, anc);
    SetRateUnion(h, inc.transactions, anc - inc.transactions);
    assert inc.transactions + (anc - inc.transactions) == inc.transactions + anc;
    assert anc <= inc.transactions + und;
    assert inc.transactions + anc + (und - anc) == inc.transactions + und;
    ExclusionClosed(h, todo, inc.transactions, und, split);
    forall b | Compatible(h, todo, inc.transactions, und, b)
      ensures || Compatible(h, todo, inc.transactions, und - desc, b)
              || Compatible(h, todo, inc.transactions + anc, und - anc, b)
    {
      if split !in b {
        forall x | x in b ensures x !in desc { assert x in desc ==> split in h.Anc(x); }
      }
    }
  }

  lemma {:induction false} ExclusionClosed(h: Graph, todo: set<nat>, inc: set<nat>, und: set<nat>, split: nat)
    requires h.Valid() && todo <= h.used && h.Closed(todo, inc) && inc !! und && h.Closed(todo, inc + und) && split in und
    ensures h.Closed(todo, inc + (und - h.Desc(split)))
  {
    var rest := inc + (und - h.Desc(split));
    forall i, a | i in rest && a in h.Anc(i) * todo ensures a in rest {
      if i !in inc { DescendantsDown(h, split, a, i); }
    }
  }

  lemma {:induction false} DescendantsDown(h: Graph, split: nat, a: nat, i: nat)
    requires h.Valid() && split in h.used && i in h.used && a in h.Anc(i)
    ensures a in h.Desc(split) ==> i in h.Desc(split)
  {
    if a in h.Desc(split) { assert h.Anc(a) <= h.Anc(i); }
  }

  // ---------- queue size and number of splits ----------

  /** Room is left for everything that depth-first processing of any item may add. */
  ghost predicate Fits(queue: seq<WorkItem>, capacity: nat) {
    forall i :: 0 <= i < |queue| ==> i + |queue[i].und| <= capacity
  }

  /** How many splits the queue can still cause. */
  ghost function Load(queue: seq<WorkItem>): nat {
    if queue == [] then 0 else Pow2(|queue[0].und|) + Load(queue[1..]) - 1
  }

  lemma {:induction false} PowSum(a: nat, b: nat)
    ensures Pow2(a) + Pow2(b) <= Pow2(a + b) + 1
  {
    if a > 0 {
      PowSum(a - 1, b);
      PowMono(b, a - 1 + b);
    }
  }

  lemma {:induction false} LoadConcat(a: seq<WorkItem>, b: seq<WorkItem>)
    ensures Load(a + b) == Load(a) + Load(b)
  {
    if a == [] {
      assert a + b == b;
    } else {
      assert (a + b)[1..] == a[1..] + b;
      LoadConcat(a[1..], b);
    }
  }

  lemma {:induction false} LoadFirst(items: seq<WorkItem>, bound: nat)
    requires items != [] && Pow2(|items[0].und|) <= bound
    ensures Load(items) <= bound - 1 + Load(items[1..])
  {
  }

  /** The items a split appends: at most two, each with fewer undecided transactions. */
  ghost predicate SmallerItems(items: seq<WorkItem>, und: set<nat>) {
    |items| <= 2 && forall it :: it in items ==> it.und < und
  }

  lemma {:induction false} SplitLoad(items: seq<WorkItem>, und: set<nat>)
    requires und != {} && SmallerItems(items, und)
    ensures Load(items) + 1 <= Pow2(|und|) - 1
    ensures |und| >= 1 && forall it :: it in items ==> |it.und| < |und|
  {
    assert |und| >= 1;
    forall it | it in items ensures |it.und| < |und| { SubsetSize(it.und, und); }
    var half := Pow2(|und| - 1);
    forall it | it in items ensures Pow2(|it.und|) <= half { PowMono(|it.und|, |und| - 1); }
    if |items| >= 1 {
      LoadFirst(items, half);
      if |items| == 2 { LoadFirst(items[1..], half); }
    }
  }

  // ---------- what add_fn establishes ----------

  /** best is a candidate, and imp holds what is above it. */
  ghost predicate Tracking(h: Graph, todo: set<nat>, best: SetInfo, imp: set<nat>) {
    && h.Cluster() && Sorted(h) && todo <= h.used && todo != {}
    && Candidate(h, todo, best) && imp == Improving(h, todo, best.feerate)
  }

  lemma {:induction false} Unpack(h: Graph, todo: set<nat>, best: SetInfo, imp: set<nat>, inc: SetInfo, und: set<nat>)
    requires Tracking(h, todo, best, imp) && Branch(h, todo, inc, und)
    ensures h.Valid() && h.Sized() && Sorted(h) && todo <= h.used
    ensures imp == Improving(h, todo, best.feerate) && imp <= h.used
    ensures best.feerate.size > 0 && best.feerate.BetterOrEqual(best.feerate)
    ensures Accurate(h, inc) && inc.transactions + und <= h.used && inc.transactions + und <= todo && inc.transactions !! und
    ensures h.Closed(todo, inc.transactions)
  {
    SetRateSize(h, best.transactions);
  }

  lemma {:induction false} NewBest(h: Graph, todo: set<nat>, best: SetInfo, imp: set<nat>, inc: SetInfo, imp': set<nat>)
    requires Tracking(h, todo, best, imp) && Accurate(h, inc) && h.Closed(todo, inc.transactions) && inc.transactions != {}
    requires inc.feerate.Better(best.feerate)
    requires imp' == set x | x in imp && h.Rate(x).Higher(inc.feerate)
    ensures Tracking(h, todo, inc, imp') && inc.feerate.size > 0
    ensures inc.feerate.BetterOrEqual(best.feerate) && !inc.feerate.Better(inc.feerate)
  {
    SetRateSize(h, best.transactions);
    SetRateSize(h, inc.transactions);
    Order(inc.feerate, best.feerate);
    Order(best.feerate, inc.feerate);
    ImprovingShrinks(h, todo, best.feerate, inc.feerate);
  }

  lemma {:induction false} PotRange(h: Graph, todo: set<nat>, inc: set<nat>, und: set<nat>, imp: set<nat>, pot: SetInfo)
    requires inc + und <= todo && IsPot(h, inc, und, imp, pot)
    ensures inc <= pot.transactions <= todo
  {
  }

  lemma {:induction false} JumpRate(h: Graph, inc0: SetInfo, inc: SetInfo)
    requires h.Sized() && Accurate(h, inc0) && inc0.transactions <= inc.transactions <= h.used && inc0.transactions != {}
    requires inc.feerate == inc0.feerate.Plus(h.SetRate(inc.transactions - inc0.transactions))
    ensures Accurate(h, inc) && inc.transactions != {} && inc.feerate.size > 0
  {
    hide Graph.SetRate;
    var x :| x in inc0.transactions;
    assert x in inc.transactions;
    SetRateSize(h, inc.transactions);
    SetRateUnion(h, inc0.transactions, inc.transactions - inc0.transactions);
    assert inc0.transactions + (inc.transactions - inc0.transactions) == inc.transactions;
  }

  lemma {:induction false} ImprovingShrinks(h: Graph, todo: set<nat>, old_: FeeFrac, best: FeeFrac)
    requires h.Sized() && todo <= h.used && old_.size > 0 && best.size > 0 && best.BetterOrEqual(old_)
    ensures Improving(h, todo, best) == set x | x in Improving(h, todo, old_) && h.Rate(x).Higher(best)
  {
    forall x | x in todo && h.Rate(x).Higher(best) ensures h.Rate(x).Higher(old_) {
      Order(best, old_);
      Order(old_, best);
      Order(h.Rate(x), best);
      Order(h.Rate(x), old_);
      LowerTrans(old_, best, h.Rate(x));
    }
  }

  /** inc was extended within pot; best is not below it. */
  ghost predicate Extended(h: Graph, todo: set<nat>, inc0: SetInfo, und0: set<nat>, old_: FeeFrac, pot: SetInfo, inc: SetInfo, best: FeeFrac) {
    && h.Sized() && todo <= h.used && Branch(h, todo, inc0, und0) && inc0.transactions != {}
    && old_.size > 0 && best.size > 0 && best.BetterOrEqual(old_)
    && IsPot(h, inc0.transactions, und0, Improving(h, todo, old_), pot)
    && inc0.transactions <= inc.transactions <= pot.transactions && h.Closed(todo, inc.transactions)
    && Accurate(h, inc) && !inc.feerate.Better(best)
  }

  lemma {:induction false} ExtendedIs(h: Graph, todo: set<nat>, inc0: SetInfo, und0: set<nat>, old_: FeeFrac, pot: SetInfo, inc: SetInfo, best: FeeFrac)
    requires h.Sized() && todo <= h.used && Branch(h, todo, inc0, und0) && inc0.transactions != {}
    requires old_.size > 0 && best.size > 0 && best.BetterOrEqual(old_)
    requires IsPot(h, inc0.transactions, und0, Improving(h, todo, old_), pot)
    requires inc0.transactions <= inc.transactions <= pot.transactions && h.Closed(todo, inc.transactions)
    requires Accurate(h, inc) && !inc.feerate.Better(best)
    ensures Extended(h, todo, inc0, und0, old_, pot, inc, best)
  {
  }

  lemma {:induction false} Jumped(h: Graph, todo: set<nat>, inc0: SetInfo, und0: set<nat>, old_: FeeFrac, pot: SetInfo, inc: SetInfo, best: FeeFrac, b: set<nat>)
    requires Extended(h, todo, inc0, und0, old_, pot, inc, best)
    requires Compatible(h, todo, inc0.transactions, und0, b) && h.SetRate(b).Better(best)
    ensures Compatible(h, todo, inc.transactions, und0 - inc.transactions, b + inc.transactions)
    ensures h.SetRate(b + inc.transactions).BetterOrEqual(h.SetRate(b)) && h.SetRate(b + inc.transactions).Better(best)
  {
    SetRateSize(h, b);
    Order(old_, best);
    Order(best, old_);
    BetterFrom(h.SetRate(b), best, old_);
    JumpAheadImproves(h, todo, inc0.transactions, und0, old_, pot, inc.transactions, b);
    SetRateSize(h, b + inc.transactions);
    BetterTo(h.SetRate(b + inc.transactions), h.SetRate(b), best);
  }

  lemma {:induction false} NothingLeft(h: Graph, todo: set<nat>, inc0: SetInfo, und0: set<nat>, old_: FeeFrac, pot: SetInfo, inc: SetInfo, best: FeeFrac)
    requires Extended(h, todo, inc0, und0, old_, pot, inc, best)
    requires pot.feerate.size == inc.feerate.size
    ensures Replaced(h, todo, inc0.transactions, und0, [], best)
  {
    SetRateSubset(h, inc.transactions, pot.transactions);
    forall b | Compatible(h, todo, inc0.transactions, und0, b) && h.SetRate(b).Better(best) ensures false {
      Jumped(h, todo, inc0, und0, old_, pot, inc, best, b);
      PotExhausted(h, todo, inc0.transactions, und0, old_, pot, best, b + inc.transactions);
    }
  }

  lemma {:induction false} ItemPushed(h: Graph, todo: set<nat>, inc0: SetInfo, und0: set<nat>, old_: FeeFrac, pot: SetInfo, inc: SetInfo, best: FeeFrac)
    requires Extended(h, todo, inc0, und0, old_, pot, inc, best)
    requires pot.feerate.size != inc.feerate.size
    ensures var it := WorkItem(inc, und0 - inc.transactions, pot.feerate);
            ItemOk(h, todo, best, it) && Replaced(h, todo, inc0.transactions, und0, [it], best)
  {
    var it := WorkItem(inc, und0 - inc.transactions, pot.feerate);
    assert inc.transactions != pot.transactions;
    assert !(pot.transactions <= inc.transactions);
    var x :| x in pot.transactions && x !in inc.transactions;
    assert x in it.und;
    SetRateSize(h, pot.transactions);
    assert inc.transactions + it.und == inc0.transactions + und0;
    PotCapsNew(h, todo, inc0.transactions, und0, old_, pot, inc.transactions, best);
    forall b | Compatible(h, todo, inc0.transactions, und0, b) && h.SetRate(b).Better(best)
      ensures Served(h, todo, [it], b)
    {
      Jumped(h, todo, inc0, und0, old_, pot, inc, best, b);
      assert Serves(h, todo, it, b);
      assert it in [it];
    }
  }

  lemma {:induction false} EmptyBranch(h: Graph, todo: set<nat>, inc: SetInfo, und: set<nat>, best: FeeFrac)
    requires h.Sized() && todo <= h.used && Branch(h, todo, inc, und) && inc.transactions == {}
    ensures und == {} ==> Replaced(h, todo, inc.transactions, und, [], best)
    ensures var it := WorkItem(inc, und, EMPTY);
            && (und != {} ==> ItemOk(h, todo, best, it))
            && Replaced(h, todo, inc.transactions, und, [it], best)
  {
    var it := WorkItem(inc, und, EMPTY);
    forall b | Compatible(h, todo, inc.transactions, und, b) && h.SetRate(b).Better(best)
      ensures Served(h, todo, [it], b)
    {
      Order(h.SetRate(b), h.SetRate(b));
      assert Serves(h, todo, it, b);
      assert it in [it];
    }
  }

  lemma {:induction false} ItemsOne(h: Graph, todo: set<nat>, best: FeeFrac, it: WorkItem)
    requires ItemOk(h, todo, best, it)
    ensures ItemsOk(h, todo, best, [it])
  {
  }

  lemma {:induction false} ItemsNone(h: Graph, todo: set<nat>)
    ensures forall best: FeeFrac :: ItemsOk(h, todo, best, [])
  {
  }

  // ---------- the search itself ----------

  class Search {
    const h: Graph
    const todo: set<nat>
    const capacity: nat
    var queue: seq<WorkItem>
    var best: SetInfo
    var imp: set<nat>
    var left: nat

    ghost predicate Valid()
      reads this`queue, this`best, this`imp
    {
      Tracking(h, todo, best, imp) && ItemsOk(h, todo, best.feerate, queue)
    }

    /** add_fn: queue the branch (inc, und) if it can still beat best, after improving it. */
    method AddItem(inc: SetInfo, und: set<nat>) returns (ghost items: seq<WorkItem>)
      requires Valid() && Branch(h, todo, inc, und)
      requires und != {} ==> |queue| < capacity
      modifies this`queue, this`best, this`imp
      ensures Valid() && best.feerate.BetterOrEqual(old(best).feerate)
      ensures queue == old(queue) + items && |items| <= 1 && forall it :: it in items ==> it.und <= und
      ensures Replaced(h, todo, inc.transactions, und, items, best.feerate)
    {
      var newBest, newImp, added := ImproveBranch(h, todo, best, imp, inc, und);
      SetRateSize(h, best.transactions);
      SetRateSize(h, newBest.transactions);
      ItemsKept(h, todo, queue, best.feerate, newBest.feerate);
      best, imp := newBest, newImp;
      assert added != [] ==> |queue| < capacity by {
        if added != [] { assert ItemOk(h, todo, newBest.feerate, added[0]); assert added[0] in added; }
      }
      queue := queue + added;
      items := added;
    }

    /** split_fn: replace a work item by the two branches of one split, or drop it. */
    method Split(e: WorkItem) returns (ghost items: seq<WorkItem>)
      requires Valid() && ItemOk(h, todo, best.feerate, e) && left > 0
      requires |queue| + |e.und| <= capacity
      modifies this`queue, this`best, this`imp, this`left
      ensures Valid() && best.feerate.BetterOrEqual(old(best).feerate)
      ensures queue == old(queue) + items && SmallerItems(items, e.und)
      ensures Replaced(h, todo, e.inc.transactions, e.und, items, best.feerate)
      ensures left == old(left) - 1 || (left == old(left) && items == [])
    {
      hide *;
      BestFacts();
      SplitFacts(h, todo, best, imp, e);
      if Discard(h, best.feerate, imp, e) {
        DiscardSound(h, todo, best, imp, e);
        items := [];
        return;
      }
      var split := ChooseSplit(h, e.und);
      items := SplitOn(e, split);
      left := left - 1;
    }

    method SplitOn(e: WorkItem, split: nat) returns (ghost items: seq<WorkItem>)
      requires Valid() && ItemOk(h, todo, best.feerate, e) && split in e.und
      requires |queue| + |e.und| <= capacity
      modifies this`queue, this`best, this`imp
      ensures Valid() && best.feerate.BetterOrEqual(old(best).feerate)
      ensures queue == old(queue) + items && SmallerItems(items, e.und)
      ensures Replaced(h, todo, e.inc.transactions, e.und, items, best.feerate)
    {
      hide *;
      BestFacts();
      SplitFacts(h, todo, best, imp, e);
      ghost var best0 := best.feerate;
      ghost var items1 := AddExclusion(e, split);
      BestFacts();
      ghost var best1 := best.feerate;
      ghost var items2 := AddInclusion(e, split);
      BestFacts();
      items := items1 + items2;
      assert old(queue) + items1 + items2 == old(queue) + items;
      SplitReplaced(h, todo, e, split, items1, items2, best0, best1, best);
    }

    /** Queue the half of the branch without the split transaction and its descendants. */
    method AddExclusion(e: WorkItem, split: nat) returns (ghost items: seq<WorkItem>)
      requires Valid() && Branch(h, todo, e.inc, e.und) && split in e.und
      requires |queue| + |e.und| <= capacity
      modifies this`queue, this`best, this`imp
      ensures Valid() && best.feerate.BetterOrEqual(old(best).feerate)
      ensures queue == old(queue) + items && |items| <= 1
      ensures forall it :: it in items ==> it.und <= e.und - h.Desc(split)
      ensures Replaced(h, todo, e.inc.transactions, e.und - h.Desc(split), items, best.feerate)
    {
      hide *;
      BestFacts();
      TrackingFacts(h, todo, best, imp);
      SplitBranches(h, todo, e.inc, e.und, split);
      TwoLeft(e.und, split, {split});
      items := AddItem(e.inc, e.und - h.Desc(split));
    }

    /** Queue the half of the branch with the split transaction and its ancestors. */
    method AddInclusion(e: WorkItem, split: nat) returns (ghost items: seq<WorkItem>)
      requires Valid() && Branch(h, todo, e.inc, e.und) && split in e.und
      requires |queue| + |e.und| <= capacity + 1
      modifies this`queue, this`best, this`imp
      ensures Valid() && best.feerate.BetterOrEqual(old(best).feerate)
      ensures queue == old(queue) + items && |items| <= 1
      ensures forall it :: it in items ==> it.und <= e.und - h.Anc(split) * todo
      ensures Replaced(h, todo, e.inc.transactions + h.Anc(split) * todo, e.und - h.Anc(split) * todo, items, best.feerate)
    {
      hide *;
      BestFacts();
      TrackingFacts(h, todo, best, imp);
      SplitBranches(h, todo, e.inc, e.und, split);
      var anc := h.Anc(split) * todo;
      TwoLeft(e.und, split, anc);
      var more := DepGraphs.FeeRateOf(h, anc - e.inc.transactions);
      items := AddItem(SetInfo(e.inc.transactions + anc, e.inc.feerate.Plus(more)), e.und - anc);
    }

    /** What the search maintains between two items. */
    ghost predicate Sound(max: nat)
      reads this
    {
      Valid() && SoundQueue(h, todo, queue, best.feerate, capacity, left, max)
    }

    /** Start a search among `left0` for something better than `best0`, which may be empty. */
    constructor (graph: Graph, todo0: set<nat>, best0: SetInfo, maxIterations: nat)
      requires graph.Cluster() && Sorted(graph) && todo0 <= graph.used && todo0 != {}
      requires Accurate(graph, best0) && graph.Closed(todo0, best0.transactions)
      ensures h == graph && todo == todo0 && Sound(maxIterations) && left == maxIterations
      ensures best0.transactions != {} ==> best == best0
    {
      h, todo := graph, todo0;
      capacity := if 2 * |todo0| < 256 then 256 else 2 * |todo0|;
      var components, start := StartQueue(graph, todo0, best0);
      StartFacts(graph, todo0, start);
      var improving := ShrinkImproving(graph, todo0, start.feerate);
      queue, best, imp := components, start, improving;
      left := maxIterations;
      new;
      StartFits(queue, todo, capacity);
    }

    /** Exchange the two front items of the queue, or leave them; either keeps the search sound. */
    method MaybeSwap(ghost max: nat)
      requires Sound(max) && queue != []
      modifies this`queue
      ensures Sound(max) && |queue| == |old(queue)|
    {
      var swap: bool := *;
      if |queue| > 1 && swap {
        ghost var q := queue;
        queue := [queue[1], queue[0]] + queue[2..];
        SwapSound(h, todo, q, queue, best.feerate, capacity, left, max);
      }
    }

    /** Work until the queue or the budget is exhausted. */
    method Run(ghost max: nat)
      requires Sound(max)
      modifies this`queue, this`best, this`imp, this`left
      ensures Sound(max) && best.feerate.BetterOrEqual(old(best).feerate)
      ensures left > 0 ==> queue == []
    {
      hide *;
      SoundFacts(max);
      ghost var best0 := best.feerate;
      NotWorse(best0);
      while queue != []
        invariant Sound(max) && best.feerate.BetterOrEqual(best0) && best0.size > 0
        decreases left, |queue|
      {
        MaybeSwap(max);
        while |queue| - 1 + |queue[0].und| > capacity
          invariant Sound(max) && best.feerate.BetterOrEqual(best0) && queue != []
          decreases left, |queue|
        {
          if left == 0 { break; }
          SoundFacts(max);
          FrontFits(max);
          ghost var before := best.feerate;
          ProcessBack(max);
          SoundFacts(max);
          BetterOrEqualTrans(best.feerate, before, best0);
        }
        if left == 0 { break; }
        SoundFacts(max);
        ghost var before := best.feerate;
        ProcessFront(max);
        SoundFacts(max);
        BetterOrEqualTrans(best.feerate, before, best0);
      }
    }

    /** What a finished search has found. */
    lemma Outcome(max: nat)
      requires Sound(max)
      ensures Candidate(h, todo, best) && left <= max && max - left <= Pow2(|todo|) - 1
      ensures queue == [] ==> BestCandidate(h, todo, best.transactions)
    {
      if queue == [] {
        forall s | s != {} && h.Closed(todo, s) ensures !h.SetRate(s).Better(best.feerate) {
          assert Beats(h, todo, s, best.feerate) ==> Served(h, todo, queue, s);
        }
      }
    }

    lemma SoundFacts(max: nat)
      requires Sound(max)
      ensures Valid() && best.feerate.size > 0 && left <= max
    {
      BestFacts();
    }

    /** A single item never outgrows the queue. */
    lemma FrontFits(max: nat)
      requires Sound(max) && queue != [] && |queue| - 1 + |queue[0].und| > capacity
      ensures |queue| > 1
    {
      assert queue[0] in queue;
      SubsetSize(queue[0].und, todo);
    }

    /** Depth-first step: process the last item. */
    method ProcessBack(ghost max: nat)
      requires Sound(max) && |queue| > 1 && left > 0
      modifies this`queue, this`best, this`imp, this`left
      ensures Sound(max) && best.feerate.BetterOrEqual(old(best).feerate)
      ensures queue != []
      ensures left < old(left) || (left == old(left) && |queue| < |old(queue)|)
    {
      var n := |queue| - 1;
      Process(queue[n], queue[..n], max) by { assert queue == queue[..n] + [queue[n]]; }
    }

    /** Breadth-first step: process the first item. */
    method ProcessFront(ghost max: nat)
      requires Sound(max) && queue != [] && left > 0
      requires |queue| - 1 + |queue[0].und| <= capacity
      modifies this`queue, this`best, this`imp, this`left
      ensures Sound(max) && best.feerate.BetterOrEqual(old(best).feerate)
      ensures left < old(left) || (left == old(left) && |queue| < |old(queue)|)
    {
      Process(queue[0], queue[1..], max) by { assert queue == [queue[0]] + queue[1..]; }
    }

    /** Remove item `e`, leaving `rest`, and split it. */
    method Process(e: WorkItem, rest: seq<WorkItem>, ghost max: nat)
      requires Sound(max) && left > 0
      requires TakenOut(queue, e, rest, capacity)
      modifies this`queue, this`best, this`imp, this`left
      ensures Sound(max) && best.feerate.BetterOrEqual(old(best).feerate)
      ensures rest <= queue
      ensures left < old(left) || (left == old(left) && |queue| < |old(queue)|)
    {
      BestFacts();
      ghost var q, best0, left0 := queue, best.feerate, left;
      QueueFacts(h, todo, q, best0, capacity, left, max, e, rest);
      queue := rest;
      assert Valid();
      hide *;
      ghost var items := Split(e);
      BestFacts();
      assert h.Sized() && todo <= h.used by { TrackingFacts(h, todo, best, imp); }
      QueueStep(h, todo, q, e, rest, items, best0, best.feerate, capacity, left0, left, max);
      SoundIs(max);
    }

    lemma SoundIs(max: nat)
      requires Valid() && SoundQueue(h, todo, queue, best.feerate, capacity, left, max)
      ensures Sound(max)
    {
    }

    lemma BestFacts()
      requires Valid()
      ensures Tracking(h, todo, best, imp) && ItemsOk(h, todo, best.feerate, queue)
      ensures Candidate(h, todo, best) && best.feerate.size > 0
    {
      SetRateSize(h, best.transactions);
    }
  }

  lemma {:induction false} TwoLeft(und: set<nat>, split: nat, gone: set<nat>)
    requires split in und && split in gone
    ensures |und| >= 1 && (und - gone != {} ==> |und| >= 2)
  {
    if und - gone != {} {
      var x :| x in und - gone;
      SubsetSize({split, x}, und);
    }
  }

  lemma {:induction false} TrackingFacts(h: Graph, todo: set<nat>, best: SetInfo, imp: set<nat>)
    requires Tracking(h, todo, best, imp)
    ensures h.Valid() && h.Sized() && todo <= h.used
  {
  }

  /** The queue covers whatever beats best, fits its capacity, and can cause only so many splits. */
  ghost predicate SoundQueue(h: Graph, todo: set<nat>, queue: seq<WorkItem>, best: FeeFrac, capacity: nat, left: nat, max: nat) {
    && Covered(h, todo, queue, best)
    && Fits(queue, capacity) && |todo| < capacity && (forall it :: it in queue ==> it.und <= todo)
    && left <= max && max - left + Load(queue) <= Pow2(|todo|) - 1
  }

  /** e comes last, or first with room for depth-first processing behind the rest. */
  ghost predicate TakenOut(queue: seq<WorkItem>, e: WorkItem, rest: seq<WorkItem>, capacity: nat) {
    queue == rest + [e] || (queue == [e] + rest && |rest| + |e.und| <= capacity)
  }

  lemma {:induction false} QueueFacts(h: Graph, todo: set<nat>, queue: seq<WorkItem>, best: FeeFrac, capacity: nat, left: nat, max: nat,
                                      e: WorkItem, rest: seq<WorkItem>)
    requires SoundQueue(h, todo, queue, best, capacity, left, max) && ItemsOk(h, todo, best, queue)
    requires TakenOut(queue, e, rest, capacity)
    ensures ItemsOk(h, todo, best, rest) && ItemOk(h, todo, best, e)
    ensures |rest| + |e.und| <= capacity && |queue| == |rest| + 1
  {
    assert e in queue && forall it :: it in rest ==> it in queue;
    if queue == rest + [e] { assert queue[|rest|] == e; }
    forall it | it in rest ensures ItemOk(h, todo, best, it) { assert it in queue; }
  }

  lemma {:induction false} QueueStep(h: Graph, todo: set<nat>, queue: seq<WorkItem>, e: WorkItem, rest: seq<WorkItem>, items: seq<WorkItem>,
                                     old_: FeeFrac, best: FeeFrac, capacity: nat, left0: nat, left: nat, max: nat)
    requires h.Sized() && todo <= h.used && old_.size > 0 && best.size > 0 && best.BetterOrEqual(old_)
    requires SoundQueue(h, todo, queue, old_, capacity, left0, max) && TakenOut(queue, e, rest, capacity) && e.und != {}
    requires Replaced(h, todo, e.inc.transactions, e.und, items, best) && SmallerItems(items, e.und)
    requires left == left0 - 1 || (left == left0 && items == [])
    ensures SoundQueue(h, todo, rest + items, best, capacity, left, max)
  {
    assert forall it :: it in queue ==> it == e || it in rest;
    CoveredStep(h, todo, queue, e, rest, items, old_, best);
    SplitLoad(items, e.und);
    LoadConcat(rest, items);
    LoadConcat(rest, [e]);
    LoadConcat([e], rest);
    assert Load([e]) == Pow2(|e.und|) - 1 by { assert [e][1..] == []; }
    FitsStep(queue, e, rest, items, capacity);
    forall it | it in rest + items ensures it.und <= todo {
      if it in items { assert e in queue; } else { assert it in queue; }
    }
  }

  lemma {:induction false} FitsStep(queue: seq<WorkItem>, e: WorkItem, rest: seq<WorkItem>, items: seq<WorkItem>, capacity: nat)
    requires Fits(queue, capacity) && TakenOut(queue, e, rest, capacity) && e.und != {} && SmallerItems(items, e.und)
    ensures Fits(rest + items, capacity)
  {
    SplitLoad(items, e.und);
    assert |rest| + |e.und| <= capacity by { if queue == rest + [e] { assert queue[|rest|] == e; } }
    forall i | 0 <= i < |rest + items| ensures i + |(rest + items)[i].und| <= capacity {
      if i < |rest| {
        var k := if queue == rest + [e] then i else i + 1;
        assert queue[k] == rest[i];
      } else {
        assert items[i - |rest|] in items;
      }
    }
  }

  lemma {:induction false} NotWorse(f: FeeFrac)
    ensures f.BetterOrEqual(f)
  {
  }

  lemma {:induction false} StartFacts(h: Graph, todo: set<nat>, best: SetInfo)
    requires h.Cluster() && todo <= h.used && Candidate(h, todo, best)
    ensures best.feerate.size > 0
  {
    SetRateSize(h, best.transactions);
  }

  lemma {:induction false} StartFits(queue: seq<WorkItem>, todo: set<nat>, capacity: nat)
    requires |queue| <= |todo| && 256 <= capacity && 2 * |todo| <= capacity && forall it :: it in queue ==> it.und <= todo
    ensures Fits(queue, capacity) && |todo| < capacity
  {
    forall i | 0 <= i < |queue| ensures i + |queue[i].und| <= capacity {
      assert queue[i] in queue;
      SubsetSize(queue[i].und, todo);
    }
  }

  lemma {:induction false} SwapSound(h: Graph, todo: set<nat>, q: seq<WorkItem>, r: seq<WorkItem>, best: FeeFrac, capacity: nat, left: nat, max: nat)
    requires |q| > 1 && r == [q[1], q[0]] + q[2..] && SoundQueue(h, todo, q, best, capacity, left, max)
    requires ItemsOk(h, todo, best, q)
    ensures SoundQueue(h, todo, r, best, capacity, left, max) && ItemsOk(h, todo, best, r)
  {
    assert q == [q[0], q[1]] + q[2..];
    assert forall it :: it in q <==> it in r;
    forall b | Beats(h, todo, b, best) ensures Served(h, todo, r, b) {
      assert Served(h, todo, q, b);
      ServedMore(h, todo, q, r, b);
    }
    SwapLoad(q, r);
    assert q[0] in q && q[1] in q;
    SubsetSize(q[0].und, todo);
    SubsetSize(q[1].und, todo);
    forall i | 0 <= i < |r| ensures i + |r[i].und| <= capacity {
      if i >= 2 { assert r[i] == q[i]; }
    }
  }

  lemma {:induction false} SwapLoad(q: seq<WorkItem>, r: seq<WorkItem>)
    requires |q| > 1 && r == [q[1], q[0]] + q[2..]
    ensures Load(r) == Load(q)
  {
    assert r[1..] == [q[0]] + q[2..] && r[1..][1..] == q[2..] && q[1..][1..] == q[2..];
  }

  /** The conditions under which split_fn drops an item. */
  predicate Discard(h: Graph, best: FeeFrac, imp: set<nat>, e: WorkItem)
    requires e.und != {}
  {
    if e.inc.transactions != {} then e.und !! imp || !e.pot.Better(best)
    else !h.Rate(First(e.und)).Better(best)
  }

  lemma {:induction false} SplitFacts(h: Graph, todo: set<nat>, best: SetInfo, imp: set<nat>, e: WorkItem)
    requires Tracking(h, todo, best, imp) && ItemOk(h, todo, best.feerate, e)
    ensures h.Valid() && h.Sized() && Sorted(h) && todo <= h.used && best.feerate.size > 0
    ensures Branch(h, todo, e.inc, e.und) && e.und != {} && e.und <= h.used
    ensures best.feerate.BetterOrEqual(best.feerate)
  {
    SetRateSize(h, best.transactions);
  }

  /** Dropping an item on these conditions loses nothing that beats best. */
  lemma {:induction false} DiscardSound(h: Graph, todo: set<nat>, best: SetInfo, imp: set<nat>, e: WorkItem)
    requires Tracking(h, todo, best, imp) && ItemOk(h, todo, best.feerate, e) && Discard(h, best.feerate, imp, e)
    ensures Replaced(h, todo, e.inc.transactions, e.und, [], best.feerate) && SmallerItems([], e.und)
  {
    SplitFacts(h, todo, best, imp, e);
    forall b | Compatible(h, todo, e.inc.transactions, e.und, b) && h.SetRate(b).Better(best.feerate) ensures false {
      if e.inc.transactions == {} {
        DiscardLowFirst(h, todo, e.und, best.feerate, b);
      } else if e.und !! imp {
        DiscardNoImproving(h, todo, e.inc.transactions, e.und, best.feerate, b);
      } else {
        DiscardLowPotential(h, todo, e.inc.transactions, e.und, e.pot, best.feerate, b);
      }
    }
  }

  lemma {:induction false} ReplacedKept(h: Graph, todo: set<nat>, inc: set<nat>, und: set<nat>, items: seq<WorkItem>, old_: FeeFrac, best: FeeFrac)
    requires h.Sized() && todo <= h.used && old_.size > 0 && best.size > 0 && best.BetterOrEqual(old_)
    requires Replaced(h, todo, inc, und, items, old_)
    ensures Replaced(h, todo, inc, und, items, best)
  {
    forall b | Compatible(h, todo, inc, und, b) && h.SetRate(b).Better(best) ensures Served(h, todo, items, b) {
      SetRateSize(h, b);
      Order(old_, best);
      Order(best, old_);
      BetterFrom(h.SetRate(b), best, old_);
    }
  }

  lemma {:induction false} SplitReplaced(h: Graph, todo: set<nat>, e: WorkItem, split: nat, items1: seq<WorkItem>, items2: seq<WorkItem>,
                                         best0: FeeFrac, best1: FeeFrac, best2: SetInfo)
    requires h.Valid() && h.Sized() && todo <= h.used && Branch(h, todo, e.inc, e.und) && split in e.und
    requires best0.size > 0 && best1.BetterOrEqual(best0) && best2.feerate.BetterOrEqual(best1) && best1.size > 0
    requires Candidate(h, todo, best2)
    requires |items1| <= 1 && forall it :: it in items1 ==> it.und <= e.und - h.Desc(split)
    requires |items2| <= 1 && forall it :: it in items2 ==> it.und <= e.und - h.Anc(split) * todo
    requires Replaced(h, todo, e.inc.transactions, e.und - h.Desc(split), items1, best1)
    requires Replaced(h, todo, e.inc.transactions + h.Anc(split) * todo, e.und - h.Anc(split) * todo, items2, best2.feerate)
    ensures Replaced(h, todo, e.inc.transactions, e.und, items1 + items2, best2.feerate)
    ensures SmallerItems(items1 + items2, e.und) && best2.feerate.BetterOrEqual(best0)
  {
    SplitBranches(h, todo, e.inc, e.und, split);
    var best := best2.feerate;
    SetRateSize(h, best2.transactions);
    BetterOrEqualTrans(best, best1, best0);
    ReplacedKept(h, todo, e.inc.transactions, e.und - h.Desc(split), items1, best1, best);
    forall b | Compatible(h, todo, e.inc.transactions, e.und, b) && h.SetRate(b).Better(best)
      ensures Served(h, todo, items1 + items2, b)
    {
      if Compatible(h, todo, e.inc.transactions, e.und - h.Desc(split), b) {
        assert Served(h, todo, items1, b);
        ServedMore(h, todo, items1, items1 + items2, b);
      } else {
        assert Served(h, todo, items2, b);
        ServedMore(h, todo, items2, items1 + items2, b);
      }
    }
  }

  /** The body of add_fn on values: the new best, the new imp, and the item to queue, if any. */
  method ImproveBranch(h: Graph, todo: set<nat>, best0: SetInfo, imp0: set<nat>, inc0: SetInfo, und0: set<nat>)
    returns (best: SetInfo, imp: set<nat>, items: seq<WorkItem>)
    requires Tracking(h, todo, best0, imp0) && Branch(h, todo, inc0, und0)
    ensures Tracking(h, todo, best, imp) && best.feerate.BetterOrEqual(best0.feerate)
    ensures |items| <= 1 && (forall it :: it in items ==> it.und <= und0) && ItemsOk(h, todo, best.feerate, items)
    ensures Replaced(h, todo, inc0.transactions, und0, items, best.feerate)
  {
    hide *;
    Unpack(h, todo, best0, imp0, inc0, und0);
    ItemsNone(h, todo);
    best, imp, items := best0, imp0, [];
    if inc0.transactions != {} {
      var pot := GrowPot(h, inc0, und0, imp);
      PotRange(h, todo, inc0.transactions, und0, imp, pot);
      var jump := JumpAhead(h, todo, inc0.transactions, pot.transactions);
      var und := und0 - jump;
      var more := DepGraphs.FeeRateOf(h, jump - inc0.transactions);
      var inc := SetInfo(jump, inc0.feerate.Plus(more));
      JumpRate(h, inc0, inc);
      if inc.feerate.Better(best.feerate) {
        imp := ShrinkImproving(h, imp, inc.feerate);
        NewBest(h, todo, best, imp0, inc, imp);
        best := inc;
      }
      ExtendedIs(h, todo, inc0, und0, best0.feerate, pot, inc, best.feerate);
      if pot.feerate.size == inc.feerate.size {
        NothingLeft(h, todo, inc0, und0, best0.feerate, pot, inc, best.feerate);
        return;
      }
      ItemPushed(h, todo, inc0, und0, best0.feerate, pot, inc, best.feerate);
      ItemsOne(h, todo, best.feerate, WorkItem(inc, und, pot.feerate));
      items := [WorkItem(inc, und, pot.feerate)];
    } else {
      EmptyBranch(h, todo, inc0, und0, best.feerate);
      if und0 == {} { return; }
      ItemsOne(h, todo, best.feerate, WorkItem(inc0, und0, EMPTY));
      items := [WorkItem(inc0, und0, EMPTY)];
    }
  }

  // ---------- the initial queue ----------

  /** What a closed set holds of `toCover` is at least as good as all of it. */
  ghost predicate GoodPart(h: Graph, b: set<nat>, toCover: set<nat>) {
    b * toCover != {} && h.SetRate(b * toCover).BetterOrEqual(h.SetRate(b))
  }

  ghost predicate Pending(h: Graph, todo: set<nat>, queue: seq<WorkItem>, toCover: set<nat>) {
    forall b {:trigger Served(h, todo, queue, b)} ::
      b != {} && h.Closed(todo, b) ==> Served(h, todo, queue, b) || GoodPart(h, b, toCover)
  }

  function StartItem(component: set<nat>): WorkItem { WorkItem(SetInfo({}, EMPTY), component, EMPTY) }

  /** Of two disjoint non-empty sets, one is at least as good as both together. */
  lemma {:induction false} OnePartBetter(h: Graph, x: set<nat>, y: set<nat>)
    requires h.Sized() && x + y <= h.used && x !! y && x != {} && y != {}
    ensures h.SetRate(x).BetterOrEqual(h.SetRate(x + y)) || h.SetRate(y).BetterOrEqual(h.SetRate(x + y))
  {
    SetRateUnion(h, x, y);
    SetRateSize(h, x);
    SetRateSize(h, y);
    var a, b := h.SetRate(x), h.SetRate(y);
    Mediant(a, b);
    Order(a.Plus(b), a);
    Order(a.Plus(b), b);
    Order(a, a.Plus(b));
    Order(b, a.Plus(b));
    Order(a, b);
  }

  lemma {:induction false} PendingStep(h: Graph, todo: set<nat>, queue: seq<WorkItem>, toCover: set<nat>, component: set<nat>)
    requires h.Valid() && h.Sized() && todo <= h.used && component <= toCover <= todo
    requires h.Closed(todo, component) && Pending(h, todo, queue, toCover)
    ensures Pending(h, todo, queue + [StartItem(component)], toCover - component)
  {
    var it := StartItem(component);
    forall b | b != {} && h.Closed(todo, b)
      ensures Served(h, todo, queue + [it], b) || GoodPart(h, b, toCover - component)
    {
      assert Served(h, todo, queue, b) || GoodPart(h, b, toCover);
      if Served(h, todo, queue, b) {
        ServedMore(h, todo, queue, queue + [it], b);
      } else {
        PendingPart(h, todo, toCover, component, b);
        assert Serves(h, todo, it, b) ==> it in queue + [it] && Served(h, todo, queue + [it], b);
      }
    }
  }

  lemma {:induction false} PendingPart(h: Graph, todo: set<nat>, toCover: set<nat>, component: set<nat>, b: set<nat>)
    requires h.Valid() && h.Sized() && todo <= h.used && component <= toCover <= todo
    requires h.Closed(todo, component) && b != {} && h.Closed(todo, b) && GoodPart(h, b, toCover)
    ensures Serves(h, todo, StartItem(component), b) || GoodPart(h, b, toCover - component)
  {
    var it := StartItem(component);
    var all, x, y := b * toCover, b * component, b * (toCover - component);
    assert x + y == all;
    ClosedUnion(h, todo, b, component);
    SetRateSize(h, b);
    SetRateSize(h, all);
    SetRateSize(h, x);
    SetRateSize(h, y);
    if x == {} {
      assert y == all;
    } else {
      assert Compatible(h, todo, it.inc.transactions, it.und, x);
      if y == {} {
        assert x == all;
      } else {
        OnePartBetter(h, x, y);
        BetterOrEqualTrans(h.SetRate(x), h.SetRate(all), h.SetRate(b));
        BetterOrEqualTrans(h.SetRate(y), h.SetRate(all), h.SetRate(b));
      }
    }
  }

  /** State of the loop that queues one item per connected component. */
  ghost predicate Starting(h: Graph, todo: set<nat>, queue: seq<WorkItem>, toCover: set<nat>) {
    && DepGraphs.Apart(h, todo, toCover)
    && (forall it :: it in queue ==> it == StartItem(it.und) && it.und != {} && h.Closed(todo, it.und))
    && |queue| + |toCover| <= |todo|
    && Load(queue) + Pow2(|toCover|) <= Pow2(|todo|)
    && Pending(h, todo, queue, toCover)
  }

  lemma {:induction false} StartingStep(h: Graph, todo: set<nat>, queue: seq<WorkItem>, toCover: set<nat>, component: set<nat>)
    requires h.Valid() && h.Sized() && todo <= h.used && Starting(h, todo, queue, toCover)
    requires DepGraphs.Apart(h, toCover, component) && component != {}
    ensures Starting(h, todo, queue + [StartItem(component)], toCover - component)
    ensures h.Closed(todo, component) && |toCover - component| < |toCover|
  {
    hide Graph.Valid, Graph.Sized;
    var it := StartItem(component);
    assert DepGraphs.Apart(h, todo, component);
    DepGraphs.ApartClosed(h, todo, component);
    RestApart(h, todo, toCover, component);
    PendingStep(h, todo, queue, toCover, component);
    StartingLoad(queue, toCover, component);
    hide Load, Pow2, Pending, Graph.Closed, DepGraphs.Apart;
    forall w | w in queue + [it] ensures w == StartItem(w.und) && w.und != {} && h.Closed(todo, w.und) {}
  }

  lemma {:induction false} StartingLoad(queue: seq<WorkItem>, toCover: set<nat>, component: set<nat>)
    requires component != {} && component <= toCover
    ensures Load(queue + [StartItem(component)]) + Pow2(|toCover - component|) <= Load(queue) + Pow2(|toCover|)
    ensures |toCover - component| < |toCover|
  {
    var it := StartItem(component);
    assert toCover == component + (toCover - component);
    assert |toCover| == |component| + |toCover - component|;
    LoadConcat(queue, [it]);
    assert Load([it]) == Pow2(|component|) - 1 by { assert [it][1..] == []; }
    PowSum(|component|, |toCover - component|);
    assert |component| >= 1;
  }

  lemma {:induction false} RestApart(h: Graph, todo: set<nat>, toCover: set<nat>, component: set<nat>)
    requires h.Valid() && todo <= h.used
    requires DepGraphs.Apart(h, todo, toCover) && DepGraphs.Apart(h, toCover, component)
    ensures DepGraphs.Apart(h, todo, toCover - component)
  {
    DepGraphs.ApartComplement(h, toCover, component);
    forall a, b | a in toCover - component && b in todo && DepGraphs.Adjacent(h, a, b) ensures b in toCover - component {
      assert b in toCover;
    }
  }

  lemma {:induction false} StartingInit(h: Graph, todo: set<nat>)
    requires h.Sized() && todo <= h.used
    ensures Starting(h, todo, [], todo)
  {
    forall b | b != {} && h.Closed(todo, b) ensures GoodPart(h, b, todo) {
      assert b * todo == b;
      Order(h.SetRate(b), h.SetRate(b));
    }
  }

  lemma {:induction false} StartingDone(h: Graph, todo: set<nat>, queue: seq<WorkItem>, best: FeeFrac)
    requires h.Sized() && todo <= h.used && Starting(h, todo, queue, {})
    ensures ItemsOk(h, todo, best, queue) && Covered(h, todo, queue, best)
    ensures |queue| <= |todo| && Load(queue) <= Pow2(|todo|) - 1
    ensures forall it :: it in queue ==> it.und <= todo
  {
    forall it | it in queue ensures ItemOk(h, todo, best, it) {
      assert {} + it.und == it.und;
    }
    forall b | Beats(h, todo, b, best) ensures Served(h, todo, queue, b) {
      assert !GoodPart(h, b, {});
    }
  }

  /** One item per connected component; best defaults to the first component. */
  method StartQueue(h: Graph, todo: set<nat>, best0: SetInfo) returns (queue: seq<WorkItem>, best: SetInfo)
    requires h.Valid() && h.Sized() && todo <= h.used && todo != {}
    requires Accurate(h, best0) && h.Closed(todo, best0.transactions)
    ensures Candidate(h, todo, best) && (best0.transactions != {} ==> best == best0)
    ensures ItemsOk(h, todo, best.feerate, queue) && Covered(h, todo, queue, best.feerate)
    ensures |queue| <= |todo| && Load(queue) <= Pow2(|todo|) - 1
    ensures forall it :: it in queue ==> it.und <= todo
  {
    queue, best := [], best0;
    var toCover := todo;
    StartingInit(h, todo);
    SetRateSize(h, best0.transactions);
    while toCover != {}
      invariant toCover <= todo && Starting(h, todo, queue, toCover)
      invariant Candidate(h, todo, best) || (best == best0 && toCover == todo && best0.transactions == {})
      invariant best0.transactions != {} ==> best == best0
      decreases |toCover|
    {
      hide *;
      var component := DepGraphs.FindConnectedComponent(h, toCover);
      StartingStep(h, todo, queue, toCover, component);
      if best.feerate.IsEmpty() {
        var rate := DepGraphs.FeeRateOf(h, component);
        best := SetInfo(component, rate);
      }
      queue := queue + [StartItem(component)];
      toCover := toCover - component;
    }
    StartingDone(h, todo, queue, best.feerate);
  }
}
