/** Fee/size pairs and the two ways the node compares them (src/util/feefrac.h).

    `>>` and `<<` compare feerates only, by cross-multiplication, so an empty pair is neither
    higher nor lower than anything.  `>` breaks feerate ties in favour of the smaller size. */
module FeeFracs {

  datatype FeeFrac = FeeFrac(fee: int, size: int) {

    function Plus(other: FeeFrac): FeeFrac { FeeFrac(fee + other.fee, size + other.size) }

    function Minus(other: FeeFrac): FeeFrac { FeeFrac(fee - other.fee, size - other.size) }

    predicate IsEmpty() { size == 0 }

    /** operator>> : strictly higher feerate. */
    predicate Higher(other: FeeFrac) { fee * other.size > other.fee * size }

    /** operator<< : strictly lower feerate. */
    predicate Lower(other: FeeFrac) { fee * other.size < other.fee * size }

    /** operator> : higher feerate, or the same feerate and a smaller size. */
    predicate Better(other: FeeFrac) {
      fee * other.size > other.fee * size ||
      (fee * other.size == other.fee * size && size < other.size)
    }

    /** operator>= */
    predicate BetterOrEqual(other: FeeFrac) {
      fee * other.size > other.fee * size ||
      (fee * other.size == other.fee * size && size <= other.size)
    }
  }

  const EMPTY := FeeFrac(0, 0)

  /** Fee left over after paying `slope` for every unit of size: the height of the point
      (size, fee) above the line of that slope through the origin. */
  ghost function Excess(slope: real, f: FeeFrac): real {
    f.fee as real - slope * (f.size as real)
  }

  ghost function Max(a: real, b: real): real { if a < b then b else a }

  lemma ExcessPlus(slope: real, a: FeeFrac, b: FeeFrac)
    ensures Excess(slope, a.Plus(b)) == Excess(slope, a) + Excess(slope, b)
  {
    assert slope * ((a.size + b.size) as real) == slope * (a.size as real) + slope * (b.size as real);
  }

  lemma MulPos(a: int, b: int, k: int)
    requires k > 0
    ensures a < b <==> a * k < b * k
    ensures a <= b <==> a * k <= b * k
  {
  }

  /** "Not higher than" is transitive through a non-empty pair. */
  lemma NotHigherTrans(a: FeeFrac, b: FeeFrac, c: FeeFrac)
    requires a.size >= 0 && b.size > 0 && c.size >= 0
    requires !a.Higher(b) && !b.Higher(c)
    ensures !a.Higher(c)
  {
    MulMono(a.fee * b.size, b.fee * a.size, c.size);
    MulMono(b.fee * c.size, c.fee * b.size, a.size);
    assert (a.fee * b.size) * c.size == (a.fee * c.size) * b.size;
    assert (b.fee * a.size) * c.size == (b.fee * c.size) * a.size;
    assert (c.fee * b.size) * a.size == (c.fee * a.size) * b.size;
    MulPos(a.fee * c.size, c.fee * a.size, b.size);
  }

  lemma MulMono(a: int, b: int, k: int)
    requires a <= b && k >= 0
    ensures a * k <= b * k
  {
  }

  /** "Lower" is transitive, also when one of the two steps is only "not higher". */
  lemma LowerTrans(a: FeeFrac, b: FeeFrac, c: FeeFrac)
    requires a.size > 0 && b.size > 0 && c.size > 0
    requires (a.Lower(b) && !b.Higher(c)) || (!a.Higher(b) && b.Lower(c))
    ensures a.Lower(c)
  {
    MulPos(a.fee * b.size, b.fee * a.size, c.size);
    MulPos(b.fee * c.size, c.fee * b.size, a.size);
    assert (a.fee * b.size) * c.size == (a.fee * c.size) * b.size;
    assert (b.fee * a.size) * c.size == (b.fee * c.size) * a.size;
    assert (c.fee * b.size) * a.size == (c.fee * a.size) * b.size;
    MulPos(a.fee * c.size, c.fee * a.size, b.size);
  }

  /** The sum of two pairs has a feerate between theirs. */
  lemma Mediant(a: FeeFrac, b: FeeFrac)
    ensures a.Lower(b) <==> a.Lower(a.Plus(b))
    ensures a.Lower(b) <==> a.Plus(b).Lower(b)
    ensures a.Higher(b) <==> a.Higher(a.Plus(b))
    ensures a.Higher(b) <==> a.Plus(b).Higher(b)
  {
    var s := a.Plus(b);
    assert a.fee * s.size == a.fee * a.size + a.fee * b.size;
    assert s.fee * a.size == a.fee * a.size + b.fee * a.size;
    assert s.fee * b.size == a.fee * b.size + b.fee * b.size;
    assert b.fee * s.size == b.fee * a.size + b.fee * b.size;
  }

  /** Joining two pairs that are both lower (or not higher) than a third keeps that. */
  lemma PlusLower(a: FeeFrac, b: FeeFrac, c: FeeFrac)
    ensures !a.Higher(c) && !b.Higher(c) ==> !a.Plus(b).Higher(c)
    ensures a.Lower(c) && !b.Higher(c) ==> a.Plus(b).Lower(c)
    ensures !a.Higher(c) && b.Lower(c) ==> a.Plus(b).Lower(c)
    ensures !a.Lower(c) && !b.Lower(c) ==> !a.Plus(b).Lower(c)
    ensures a.Higher(c) && !b.Lower(c) ==> a.Plus(b).Higher(c)
    ensures !a.Lower(c) && b.Higher(c) ==> a.Plus(b).Higher(c)
  {
    assert a.Plus(b).fee * c.size == a.fee * c.size + b.fee * c.size;
    assert c.fee * a.Plus(b).size == c.fee * a.size + c.fee * b.size;
  }

  lemma Scale(x: real, y: real, k: real)
    requires k > 0.0
    ensures x <= y <==> x * k <= y * k
  {
  }

  /** A pair that is not higher than another has no more than the other's positive excess, at
      any slope, provided it is no larger. */
  lemma ExcessOfPart(slope: real, part: FeeFrac, whole: FeeFrac)
    requires 0 <= part.size <= whole.size && whole.size > 0
    requires !part.Higher(whole)
    ensures Excess(slope, part) <= Max(0.0, Excess(slope, whole))
  {
    var x, pf, ps, wf, ws := Excess(slope, whole), part.fee as real, part.size as real, whole.fee as real, whole.size as real;
    assert pf * ws <= wf * ps by {
      assert (part.fee * whole.size) as real == pf * ws;
      assert (whole.fee * part.size) as real == wf * ps;
    }
    // Excess(part) * ws <= x * ps
    assert Excess(slope, part) * ws == pf * ws - slope * ps * ws;
    assert x * ps == wf * ps - slope * ws * ps;
    assert Excess(slope, part) * ws <= x * ps;
    if x <= 0.0 {
      assert x * ps <= 0.0;
      Scale(Excess(slope, part), 0.0, ws);
    } else {
      assert x * ps <= x * ws;
      Scale(Excess(slope, part), x, ws);
    }
  }

  /** Feerate order seen through slopes: at every slope where the lower pair has no negative
      excess, neither has the one that is not lower. */
  lemma ExcessOrder(slope: real, a: FeeFrac, b: FeeFrac)
    requires a.size > 0 && b.size >= 0
    requires !b.Lower(a)
    requires Excess(slope, a) >= 0.0
    ensures Excess(slope, b) >= 0.0
  {
    var af, as_, bf, bs := a.fee as real, a.size as real, b.fee as real, b.size as real;
    assert bf * as_ >= af * bs by {
      assert (b.fee * a.size) as real == bf * as_;
      assert (a.fee * b.size) as real == af * bs;
    }
    assert Excess(slope, b) * as_ == bf * as_ - slope * bs * as_;
    assert Excess(slope, a) * bs == af * bs - slope * as_ * bs;
    assert Excess(slope, a) * bs >= 0.0;
    Scale(0.0, Excess(slope, b), as_);
  }

  /** The mirror image: where the not-lower pair has non-positive excess, so has the other. */
  lemma ExcessOrderDown(slope: real, a: FeeFrac, b: FeeFrac)
    requires a.size > 0 && b.size >= 0
    requires !b.Higher(a)
    requires Excess(slope, a) <= 0.0
    ensures Excess(slope, b) <= 0.0
  {
    var af, as_, bf, bs := a.fee as real, a.size as real, b.fee as real, b.size as real;
    assert bf * as_ <= af * bs by {
      assert (b.fee * a.size) as real == bf * as_;
      assert (a.fee * b.size) as real == af * bs;
    }
    assert Excess(slope, b) * as_ == bf * as_ - slope * bs * as_;
    assert Excess(slope, a) * bs == af * bs - slope * as_ * bs;
    assert Excess(slope, a) * bs <= 0.0;
    Scale(Excess(slope, b), 0.0, as_);
  }

  /** The total order `>` is transitive. */
  lemma BetterTrans(a: FeeFrac, b: FeeFrac, c: FeeFrac)
    requires a.size > 0 && b.size > 0 && c.size > 0
    requires a.Better(b) && b.Better(c)
    ensures a.Better(c)
  {
    NotHigherTrans(c, b, a);
    if a.Higher(b) || b.Higher(c) {
      LowerTrans(c, b, a);
    } else {
      NotHigherTrans(a, b, c);
    }
  }

  /** `>` also composes with `>=`. */
  lemma BetterOrEqualTrans(a: FeeFrac, b: FeeFrac, c: FeeFrac)
    requires a.size > 0 && b.size > 0 && c.size > 0
    ensures a.BetterOrEqual(b) && b.BetterOrEqual(c) ==> a.BetterOrEqual(c)
    ensures !a.BetterOrEqual(b) <==> b.Better(a)
  {
    if a.BetterOrEqual(b) && b.BetterOrEqual(c) {
      NotHigherTrans(c, b, a);
      if a.Higher(b) || b.Higher(c) {
        LowerTrans(c, b, a);
      } else {
        NotHigherTrans(a, b, c);
      }
    }
  }

  /** How the comparisons relate. */
  lemma Order(a: FeeFrac, b: FeeFrac)
    ensures a.Higher(b) <==> b.Lower(a)
    ensures a.Lower(b) <==> b.Higher(a)
    ensures !(a.Higher(b) && a.Lower(b))
    ensures a.Better(b) <==> a.Higher(b) || (!a.Lower(b) && a.size < b.size)
    ensures a.BetterOrEqual(b) <==> !b.Better(a)
  {
  }
}
