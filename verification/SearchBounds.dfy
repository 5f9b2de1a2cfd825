/** Why the pruning of the candidate search loses nothing (src/cluster_linearize.h:797-894).

    All of this is about the internal graph of the search, whose transactions are numbered by
    decreasing feerate. */
module SearchBounds {
  import opened FeeFracs
  import opened Sets
  import opened Graphs
  import opened Chunkings

  /** Lower positions hold better transactions. */
  ghost predicate Sorted(h: Graph) {
    forall i, j :: i in h.used && j in h.used && i < j ==> !h.Rate(j).Better(h.Rate(i))
  }

  /** The transactions with a feerate above that of `best`. */
  ghost function Improving(h: Graph, todo: set<nat>, best: FeeFrac): set<nat> {
    set x | x in todo && h.Rate(x).Higher(best)
  }

  /** A set that a work item with these included and undecided sets can still lead to. */
  ghost predicate Compatible(h: Graph, todo: set<nat>, inc: set<nat>, und: set<nat>, b: set<nat>) {
    b != {} && h.Closed(todo, b) && inc <= b <= inc + und
  }

  // ---------- feerates of sets from feerates of members ----------

  lemma {:induction false} AllNotHigher(h: Graph, s: set<nat>, f: FeeFrac)
    requires forall x :: x in s ==> !h.Rate(x).Higher(f)
    ensures !h.SetRate(s).Higher(f)
    decreases |s|
  {
    if s != {} {
      var x := First(s);
      AllNotHigher(h, s - {x}, f);
      PlusLower(h.Rate(x), h.SetRate(s - {x}), f);
    }
  }

  lemma {:induction false} AllHigher(h: Graph, s: set<nat>, f: FeeFrac)
    requires forall x :: x in s ==> h.Rate(x).Higher(f)
    ensures s != {} ==> h.SetRate(s).Higher(f)
    ensures !h.SetRate(s).Lower(f)
    decreases |s|
  {
    if s != {} {
      var x := First(s);
      AllHigher(h, s - {x}, f);
      PlusLower(h.Rate(x), h.SetRate(s - {x}), f);
    }
  }

  /** No set of transactions beats a pair that none of its members beats. */
  lemma {:induction false} NoneBetter(h: Graph, s: set<nat>, f: FeeFrac)
    requires h.Sized() && s <= h.used && s != {} && f.size > 0
    requires forall x :: x in s ==> !h.Rate(x).Better(f)
    ensures !h.SetRate(s).Better(f)
  {
    forall x | x in s ensures !h.Rate(x).Higher(f) { Order(h.Rate(x), f); }
    AllNotHigher(h, s, f);
    Order(h.SetRate(s), f);
    var x := First(s);
    var rest := s - {x};
    AllNotHigher(h, rest, f);
    SetRateSize(h, rest);
    PlusLower(h.Rate(x), h.SetRate(rest), f);
    Order(h.Rate(x), f);
  }

  // ---------- pot ----------

  /** `pot` adds to `inc` exactly the improving undecided transactions that raise it. */
  ghost predicate IsPot(h: Graph, inc: set<nat>, und: set<nat>, imp: set<nat>, pot: SetInfo) {
    && Accurate(h, pot)
    && inc <= pot.transactions <= inc + und * imp
    && (forall a :: a in pot.transactions - inc ==> h.Rate(a).Higher(pot.feerate))
    && (forall r :: r in und * imp - pot.transactions ==> !h.Rate(r).Higher(pot.feerate))
  }

  /** Everything a work item can lead to that beats `best` has at most the feerate of `pot`, and
      has it only by containing `pot`. */
  lemma {:induction false} PotBound(h: Graph, todo: set<nat>, inc: set<nat>, und: set<nat>, best: FeeFrac, pot: SetInfo, b: set<nat>)
    requires h.Sized() && todo <= h.used && inc + und <= todo && inc !! und && inc != {} && best.size > 0
    requires IsPot(h, inc, und, Improving(h, todo, best), pot)
    requires inc <= b <= inc + und && h.SetRate(b).Better(best)
    ensures !h.SetRate(b).Higher(pot.feerate)
    ensures !h.SetRate(b).Lower(pot.feerate) ==> pot.transactions <= b
  {
    var p := pot.transactions;
    var common, missing, extra := b * p, p - b, b - p;
    SetRateSplit(h, b, p);
    SetRateSplit(h, p, b);
    assert p * b == common;
    AllHigher(h, missing, pot.feerate);
    CommonNotHigher(h, common, missing, pot.feerate);
    assert common != {} by { var x :| x in inc; assert x in common; }
    if forall r :: r in extra ==> !h.Rate(r).Higher(pot.feerate) {
      AllNotHigher(h, extra, pot.feerate);
      PlusLower(h.SetRate(common), h.SetRate(extra), pot.feerate);
      if missing == {} {
        assert p <= b by { forall x | x in p ensures x in b { assert x !in missing; } }
      } else {
        Order(h.SetRate(b), pot.feerate);
      }
    } else {
      var r :| r in extra && h.Rate(r).Higher(pot.feerate);
      PotTooLow(h, todo, inc, und, best, pot, b, r);
    }
  }

  /** What is left of a set after taking out members above its feerate is below it. */
  lemma {:induction false} CommonNotHigher(h: Graph, common: set<nat>, missing: set<nat>, f: FeeFrac)
    requires h.SetRate(common).Plus(h.SetRate(missing)) == f
    requires missing != {} ==> h.SetRate(missing).Higher(f)
    ensures !h.SetRate(common).Higher(f)
    ensures missing != {} ==> h.SetRate(common).Lower(f)
  {
    var c, m := h.SetRate(common), h.SetRate(missing);
    if missing == {} {
      assert m == EMPTY;
      assert c == f;
    } else {
      hide *;
      RestLower(c, m, f);
    }
  }

  lemma {:induction false} RestLower(c: FeeFrac, m: FeeFrac, f: FeeFrac)
    requires c.Plus(m) == f && m.Higher(f)
    ensures c.Lower(f) && !c.Higher(f)
  {
    hide *;
    Mediant(c, m);
    Order(m, f);
    Order(c, f);
  }

  /** If pot stopped below a transaction that could still raise it, then that transaction does
      not beat `best`, and neither does anything the item can lead to. */
  lemma {:induction false} PotTooLow(h: Graph, todo: set<nat>, inc: set<nat>, und: set<nat>, best: FeeFrac, pot: SetInfo, b: set<nat>, r: nat)
    requires h.Sized() && todo <= h.used && inc + und <= todo && inc !! und && inc != {} && best.size > 0
    requires IsPot(h, inc, und, Improving(h, todo, best), pot)
    requires inc <= b <= inc + und && r in b - pot.transactions && h.Rate(r).Higher(pot.feerate)
    ensures !h.SetRate(b).Better(best)
  {
    var p := pot.transactions;
    var common, missing, extra := b * p, p - b, b - p;
    SetRateSplit(h, b, p);
    SetRateSplit(h, p, b);
    assert p * b == common;
    assert common != {} by { var x :| x in inc; assert x in common; }
    SetRateSize(h, p);
    SetRateSize(h, common);
    assert !h.Rate(r).Higher(best);
    Order(h.Rate(r), pot.feerate);
    LowerTrans(pot.feerate, h.Rate(r), best);
    forall x | x in extra ensures !h.Rate(x).Higher(best) {
      if x in Improving(h, todo, best) {
        assert x in und * Improving(h, todo, best) - p;
        NotHigherTrans(h.Rate(x), pot.feerate, best) by { Order(pot.feerate, best); }
      }
    }
    AllNotHigher(h, extra, best);
    AllHigher(h, missing, pot.feerate);
    CommonNotHigher(h, common, missing, pot.feerate);
    LowerTrans(h.SetRate(common), pot.feerate, best);
    PlusLower(h.SetRate(common), h.SetRate(extra), best);
    Order(h.SetRate(b), best);
  }

  /** The jump-ahead step: joining members of pot to a compatible set that beats `best` does not
      make it worse. */
  lemma {:induction false} JumpAheadImproves(h: Graph, todo: set<nat>, inc: set<nat>, und: set<nat>, best: FeeFrac, pot: SetInfo, jump: set<nat>, b: set<nat>)
    requires h.Sized() && todo <= h.used && inc + und <= todo && inc !! und && inc != {} && best.size > 0
    requires IsPot(h, inc, und, Improving(h, todo, best), pot)
    requires inc <= jump <= pot.transactions && h.Closed(todo, jump)
    requires Compatible(h, todo, inc, und, b) && h.SetRate(b).Better(best)
    ensures Compatible(h, todo, jump, und - jump, b + jump)
    ensures h.SetRate(b + jump).BetterOrEqual(h.SetRate(b))
  {
    ClosedUnion(h, todo, b, jump);
    PotBound(h, todo, inc, und, best, pot, b);
    var more := jump - b;
    SetRateUnion(h, b, more);
    assert b + more == b + jump;
    var rb, rm := h.SetRate(b), h.SetRate(more);
    if more == {} {
      assert b + jump == b;
    } else {
      AllHigher(h, more, pot.feerate);
      SetRateSize(h, b);
      SetRateSize(h, more);
      SetRateSize(h, pot.transactions);
      Order(rm, pot.feerate);
      Order(rb, pot.feerate);
      LowerTrans(rb, pot.feerate, rm);
      Mediant(rb, rm);
      Order(rb, rb.Plus(rm));
      Order(rb.Plus(rm), rb);
    }
  }

  /** When pot adds nothing, the item holds nothing better than its own included set. */
  lemma {:induction false} PotExhausted(h: Graph, todo: set<nat>, inc: set<nat>, und: set<nat>, old_: FeeFrac, pot: SetInfo, best: FeeFrac, b: set<nat>)
    requires h.Sized() && todo <= h.used && inc + und <= todo && inc !! und && inc != {} && old_.size > 0 && best.size > 0
    requires IsPot(h, inc, und, Improving(h, todo, old_), pot)
    requires best.BetterOrEqual(old_) && !pot.feerate.Better(best)
    requires pot.transactions <= b <= inc + und
    ensures !h.SetRate(b).Better(best)
  {
    if h.SetRate(b).Better(best) {
      SetRateSize(h, b) by { assert b <= h.used; var x :| x in inc; assert x in b; }
      BetterFrom(h.SetRate(b), best, old_);
      PotBound(h, todo, inc, und, old_, pot, b);
      SetRateSubset(h, pot.transactions, b);
      SetRateSize(h, pot.transactions);
      BetterFrom(h.SetRate(b), best, pot.feerate);
      Order(h.SetRate(b), pot.feerate);
    }
  }

  lemma {:induction false} BetterFrom(a: FeeFrac, b: FeeFrac, c: FeeFrac)
    requires a.size > 0 && b.size > 0 && c.size > 0
    requires a.Better(b) && !c.Better(b)
    ensures a.Better(c)
  {
    Order(b, c);
    Order(c, a);
    BetterOrEqualTrans(a, b, c);
    BetterOrEqualTrans(b, c, a);
    BetterOrEqualTrans(c, a, b);
    Order(a, b);
    Order(b, a);
    Order(a, c);
  }

  /** What the stored potential of a work item promises: nothing the item leads to beats both. */
  ghost predicate PotCaps(h: Graph, todo: set<nat>, inc: set<nat>, und: set<nat>, pot: FeeFrac, best: FeeFrac) {
    forall b {:trigger Compatible(h, todo, inc, und, b)} ::
      Compatible(h, todo, inc, und, b) && h.SetRate(b).Better(best) ==> !h.SetRate(b).Better(pot)
  }

  lemma {:induction false} PotCapsNew(h: Graph, todo: set<nat>, inc: set<nat>, und: set<nat>, old_: FeeFrac, pot: SetInfo, jump: set<nat>, best: FeeFrac)
    requires h.Sized() && todo <= h.used && inc + und <= todo && inc !! und && inc != {} && old_.size > 0 && best.size > 0
    requires IsPot(h, inc, und, Improving(h, todo, old_), pot)
    requires inc <= jump <= pot.transactions && best.BetterOrEqual(old_)
    ensures PotCaps(h, todo, jump, und - jump, pot.feerate, best)
  {
    forall b | Compatible(h, todo, jump, und - jump, b) && h.SetRate(b).Better(best)
      ensures !h.SetRate(b).Better(pot.feerate)
    {
      SetRateSize(h, b);
      Order(old_, best);
      Order(best, old_);
      BetterFrom(h.SetRate(b), best, old_);
      PotBound(h, todo, inc, und, old_, pot, b);
      Order(h.SetRate(b), pot.feerate);
      if pot.transactions <= b { SetRateSubset(h, pot.transactions, b); }
    }
  }

  /** A better best only weakens what the potential has to cap. */
  lemma {:induction false} PotCapsKept(h: Graph, todo: set<nat>, inc: set<nat>, und: set<nat>, pot: FeeFrac, old_: FeeFrac, best: FeeFrac)
    requires h.Sized() && todo <= h.used && old_.size > 0 && best.size > 0
    requires PotCaps(h, todo, inc, und, pot, old_) && best.BetterOrEqual(old_)
    ensures PotCaps(h, todo, inc, und, pot, best)
  {
    forall b | Compatible(h, todo, inc, und, b) && h.SetRate(b).Better(best)
      ensures !h.SetRate(b).Better(pot)
    {
      SetRateSize(h, b);
      Order(old_, best);
      Order(best, old_);
      BetterFrom(h.SetRate(b), best, old_);
    }
  }

  // ---------- the three ways split_fn discards an item ----------

  /** No undecided transaction beats `best`. */
  lemma {:induction false} DiscardNoImproving(h: Graph, todo: set<nat>, inc: set<nat>, und: set<nat>, best: FeeFrac, b: set<nat>)
    requires h.Sized() && todo <= h.used && inc + und <= todo && inc != {} && best.size > 0
    requires und !! Improving(h, todo, best) && !h.SetRate(inc).Better(best)
    requires inc <= b <= inc + und
    ensures !h.SetRate(b).Better(best)
  {
    var rest := b - inc;
    SetRateSubset(h, inc, b);
    forall x | x in rest ensures !h.Rate(x).Higher(best) { assert x in und; }
    AllNotHigher(h, rest, best);
    Order(h.SetRate(inc), best);
    Order(h.SetRate(b), best);
    PlusLower(h.SetRate(inc), h.SetRate(rest), best);
  }

  /** The potential does not beat `best`. */
  lemma {:induction false} DiscardLowPotential(h: Graph, todo: set<nat>, inc: set<nat>, und: set<nat>, pot: FeeFrac, best: FeeFrac, b: set<nat>)
    requires h.Sized() && todo <= h.used && best.size > 0 && pot.size > 0
    requires PotCaps(h, todo, inc, und, pot, best) && !pot.Better(best)
    requires Compatible(h, todo, inc, und, b)
    ensures !h.SetRate(b).Better(best)
  {
    if h.SetRate(b).Better(best) {
      SetRateSize(h, b);
      BetterFrom(h.SetRate(b), best, pot);
    }
  }

  /** Nothing is included yet and the best undecided transaction does not beat `best`. */
  lemma {:induction false} DiscardLowFirst(h: Graph, todo: set<nat>, und: set<nat>, best: FeeFrac, b: set<nat>)
    requires h.Sized() && Sorted(h) && todo <= h.used && und <= todo && und != {} && best.size > 0
    requires !h.Rate(First(und)).Better(best)
    requires b != {} && b <= und
    ensures !h.SetRate(b).Better(best)
  {
    var f := First(und);
    forall x | x in b ensures !h.Rate(x).Better(h.Rate(f)) {
      Order(h.Rate(x), h.Rate(f));
    }
    NoneBetter(h, b, h.Rate(f));
    SetRateSize(h, b);
    if h.SetRate(b).Better(best) {
      BetterFrom(h.SetRate(b), best, h.Rate(f));
    }
  }
}
