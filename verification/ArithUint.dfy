/** Unsigned integers of any whole number of 32-bit digits, changed in place. */
module ArithUints {
  import opened Arithmetic
  import opened Powers
  import opened Limbs
  import opened Shifts

  // ---------- digit-wise steps ----------

  /** One digit with its carry. */
  lemma {:induction false} CarryStep(n: nat, w: nat)
    ensures w * (n % BASE) + (BASE * w) * (n / BASE) == w * n && n % BASE < BASE
  {
    DivMod(n, BASE);
    Distribute((n / BASE) * BASE, n % BASE, w);
    Associate(n / BASE, BASE, w);
  }

  /** a and b have been added up to digit i. */
  ghost predicate Adding(a: seq<nat>, b: seq<nat>, s: seq<nat>, i: nat, carry: nat) {
    |a| == |b| == |s| && i <= |a| && carry <= 1 && s[i..] == a[i..] && IsLimbs(s)
    && Value(s[..i]) + Weight(i) * carry == Value(a[..i]) + Value(b[..i])
  }

  lemma {:induction false} AddStart(a: seq<nat>, b: seq<nat>)
    requires |a| == |b| && IsLimbs(a)
    ensures Adding(a, b, a, 0, 0)
  {
  }

  lemma {:induction false} AddDigit(a: seq<nat>, b: seq<nat>, s: seq<nat>, i: nat, carry: nat)
    requires Adding(a, b, s, i, carry) && IsLimbs(b) && i < |a|
    ensures var n := carry + s[i] + b[i];
            n < BASE * BASE && n / BASE <= 1 && Adding(a, b, s[i := n % BASE], i + 1, n / BASE)
  {
    hide Value, Weight;
    var n := carry + s[i] + b[i];
    assert s[i] == s[i..][0] == a[i..][0] == a[i];
    CarryStep(n, Weight(i));
    var t := s[i := n % BASE];
    assert t[i + 1..] == s[i + 1..] == s[i..][1..] == a[i..][1..] == a[i + 1..];
    assert t[..i + 1] == s[..i] + [n % BASE] && a[..i + 1] == a[..i] + [a[i]] && b[..i + 1] == b[..i] + [b[i]];
    ValueSnoc(s[..i], n % BASE);
    ValueSnoc(a[..i], a[i]);
    ValueSnoc(b[..i], b[i]);
    WeightNext(i);
    Distribute(carry, a[i] + b[i], Weight(i));
    Distribute(a[i], b[i], Weight(i));
  }

  lemma {:induction false} AddEnd(a: seq<nat>, b: seq<nat>, s: seq<nat>, carry: nat)
    requires Adding(a, b, s, |a|, carry)
    ensures IsLimbs(s) && Value(s) == Mod(Value(a) + Value(b), Weight(|a|))
  {
    hide Value, Weight;
    assert s[..|s|] == s && a[..|a|] == a && b[..|b|] == b;
    ValueBound(s);
    DivUnique(Value(a) + Value(b), Weight(|a|), carry, Value(s));
  }

  /** a is being incremented: the digits before i have wrapped around. */
  ghost predicate Incrementing(a: seq<nat>, s: seq<nat>, i: nat) {
    |a| == |s| && i <= |a| && IsLimbs(s) && Value(s) + Weight(i) == Value(a) + 1
  }

  lemma {:induction false} IncrementStep(a: seq<nat>, s: seq<nat>, i: nat)
    requires Incrementing(a, s, i) && i < |a|
    ensures var t := s[i := (s[i] + 1) % BASE];
            IsLimbs(t) && (t[i] != 0 ==> Value(t) == Value(a) + 1) && (t[i] == 0 ==> Incrementing(a, t, i + 1))
  {
    hide Value, Weight;
    var x := (s[i] + 1) % BASE;
    ValueUpdate(s, i, x);
    WeightNext(i);
    Distribute(s[i], 1, Weight(i));
  }

  lemma {:induction false} Wrapped(a: seq<nat>, s: seq<nat>, v: nat)
    requires IsLimbs(a) && IsLimbs(s) && |s| == |a| && (Value(s) == v || Value(s) + Weight(|a|) == v)
    ensures Value(s) == Mod(v, Weight(|a|))
  {
    hide Value, Weight;
    ValueBound(s);
    if Value(s) == v { ModSmall(v, Weight(|a|)); } else { DivUnique(v, Weight(|a|), 1, Value(s)); }
  }

  /** a is being decremented: the digits before i have wrapped around. */
  ghost predicate Decrementing(a: seq<nat>, s: seq<nat>, i: nat) {
    |a| == |s| && i <= |a| && IsLimbs(s) && Value(s) + 1 == Value(a) + Weight(i)
  }

  lemma {:induction false} DecrementStep(a: seq<nat>, s: seq<nat>, i: nat)
    requires Decrementing(a, s, i) && i < |a|
    ensures var t := s[i := (s[i] + BASE - 1) % BASE];
            IsLimbs(t) && (t[i] != BASE - 1 ==> Value(t) + 1 == Value(a)) && (t[i] == BASE - 1 ==> Decrementing(a, t, i + 1))
  {
    hide Value, Weight;
    var x := (s[i] + BASE - 1) % BASE;
    ValueUpdate(s, i, x);
    WeightNext(i);
    if s[i] == 0 {
      Distribute(BASE, -1, Weight(i));
    } else {
      assert x == s[i] - 1;
      Distribute(s[i], -1, Weight(i));
    }
  }

  lemma {:induction false} ComplementValue(a: seq<nat>, s: seq<nat>)
    requires |s| == |a| && IsLimbs(a) && forall i :: 0 <= i < |a| ==> s[i] == BASE - 1 - a[i]
    ensures IsLimbs(s) && Value(s) == Weight(|a|) - 1 - Value(a)
  {
    if a == [] {
      WeightZero();
    } else {
      ComplementValue(a[1..], s[1..]);
      WeightNext(|a| - 1);
    }
  }

  /** Adding the negation subtracts. */
  lemma {:induction false} AddNegated(v: nat, b: nat, m: nat)
    requires v < m && b < m
    ensures Mod(v + Mod(m - b, m), m) == Mod(v + m - b, m)
    ensures b <= v ==> Mod(v + m - b, m) == v - b
  {
    if b == 0 {
      DivUnique(m, m, 1, 0);
      ModPlus(v, 1, m);
    } else {
      ModSmall(m - b, m);
    }
    ModSmall(v, m);
    if b <= v { DivUnique(v + m - b, m, 1, v - b); }
  }

  // ---------- products ----------

  /** Row j of the product: p times the digits of b before i has been added to a. */
  ghost predicate InRow(old_: seq<nat>, a: seq<nat>, p: nat, b: seq<nat>, j: nat, i: nat, carry: nat) {
    |a| == |old_| == |b| && i + j <= |a| && carry < BASE && IsLimbs(a) && a[..j] == old_[..j] && a[i + j..] == old_[i + j..]
    && Value(a[j..i + j]) + Weight(i) * carry == Value(old_[j..i + j]) + p * Value(b[..i])
  }

  lemma {:induction false} RowStart(a: seq<nat>, p: nat, b: seq<nat>, j: nat)
    requires |a| == |b| && j <= |a| && IsLimbs(a)
    ensures InRow(a, a, p, b, j, 0, 0)
  {
    assert a[j..0 + j] == [] && b[..0] == [];
  }

  lemma {:induction false} RowSum(carry: nat, x: nat, p: nat, y: nat)
    requires carry < BASE && x < BASE && p < BASE && y < BASE
    ensures (carry + x + p * y) < BASE * BASE && (carry + x + p * y) / BASE < BASE
  {
    TimesMono(p, BASE - 1, y);
    TimesMono(y, BASE - 1, BASE - 1);
  }

  lemma {:induction false} RowDigit(old_: seq<nat>, a: seq<nat>, p: nat, b: seq<nat>, j: nat, i: nat, carry: nat)
    requires InRow(old_, a, p, b, j, i, carry) && IsLimbs(b) && p < BASE && i + j < |a|
    ensures var n := carry + a[i + j] + p * b[i];
            n < BASE * BASE && InRow(old_, a[i + j := n % BASE], p, b, j, i + 1, n / BASE)
  {
    hide InRow;
    RowFacts(old_, a, p, b, j, i, carry);
    var n := carry + a[i + j] + p * b[i];
    RowSum(carry, a[i + j], p, b[i]);
    DivMod(n, BASE);
    RowPlaced(old_, a, p, b, j, i, carry, n % BASE, n / BASE);
  }

  lemma {:induction false} RowFacts(old_: seq<nat>, a: seq<nat>, p: nat, b: seq<nat>, j: nat, i: nat, carry: nat)
    requires InRow(old_, a, p, b, j, i, carry)
    ensures |a| == |old_| == |b| && i + j <= |a| && carry < BASE && IsLimbs(a)
  {
  }

  lemma {:induction false} RowPlaced(old_: seq<nat>, a: seq<nat>, p: nat, b: seq<nat>, j: nat, i: nat, carry: nat, x: nat, c: nat)
    requires InRow(old_, a, p, b, j, i, carry) && i + j < |a|
    requires c * BASE + x == carry + a[i + j] + p * b[i] && x < BASE && c < BASE
    ensures InRow(old_, a[i + j := x], p, b, j, i + 1, c)
  {
    hide Value, Weight;
    var k := i + j;
    var t := a[k := x];
    assert a[k] == a[k..][0] == old_[k..][0] == old_[k];
    assert t[k + 1..] == a[k + 1..] == a[k..][1..] == old_[k..][1..] == old_[k + 1..];
    assert t[j..k + 1] == a[j..k] + [x] && old_[j..k + 1] == old_[j..k] + [old_[k]] && b[..i + 1] == b[..i] + [b[i]];
    RowArithmetic(a[j..k], old_[j..k], b[..i], x, old_[k], b[i], p, carry, c);
  }

  lemma {:induction false} RowArithmetic(s: seq<nat>, o: seq<nat>, b: seq<nat>, x: nat, y: nat, z: nat, p: nat, carry: nat, c: nat)
    requires |s| == |o| == |b| && c * BASE + x == carry + y + p * z
    requires Value(s) + Weight(|s|) * carry == Value(o) + p * Value(b)
    ensures Value(s + [x]) + Weight(|s| + 1) * c == Value(o + [y]) + p * Value(b + [z])
  {
    hide Value, Weight;
    var w := Weight(|s|);
    ValueSnoc(s, x);
    ValueSnoc(o, y);
    ValueSnoc(b, z);
    WeightNext(|s|);
    Distribute(c * BASE, x, w);
    Associate(c, BASE, w);
    Distribute(carry, y + p * z, w);
    Distribute(y, p * z, w);
    Distribute(Value(b), w * z, p);
    Associate(p, w, z);
  }

  /** A finished row adds p * b, shifted, but for what leaves the top. */
  lemma {:induction false} RowEnd(old_: seq<nat>, a: seq<nat>, p: nat, b: seq<nat>, j: nat, carry: nat) returns (k: nat)
    requires j <= |a| && InRow(old_, a, p, b, j, |a| - j, carry) && IsLimbs(old_) && IsLimbs(b)
    ensures Value(a) + k * Weight(|a|) == Value(old_) + (Weight(j) * p) * Value(b)
  {
    hide Value, Weight;
    var w, i := |a|, |a| - j;
    assert a[j..i + j] == a[j..] && old_[j..i + j] == old_[j..];
    ValueSplit(a, j);
    ValueSplit(old_, j);
    ValueSplit(b, i);
    WeightAdd(j, i);
    var high := Value(b[i..]);
    k := carry + p * high;
    RowTotal(Weight(j), Weight(i), Value(a[j..]), carry, Value(old_[j..]), p, Value(b[..i]), high);
  }

  lemma {:induction false} RowTotal(wj: nat, wi: nat, a: nat, carry: nat, o: nat, p: nat, low: nat, high: nat)
    requires a + wi * carry == o + p * low
    ensures wj * a + (carry + p * high) * (wj * wi) == wj * o + (wj * p) * (low + wi * high)
  {
    Distribute(a, wi * carry, wj);
    Distribute(o, p * low, wj);
    Associate(wj, wi, carry);
    Distribute(carry, p * high, wj * wi);
    Associate(wj, p, low);
    Distribute(low, wi * high, wj * p);
    assert (wj * p) * (wi * high) == (p * high) * (wj * wi) by {
      Associate(wj, p, wi * high);
      Associate(p, wi, high);
      Associate(wi, p, high);
      Associate(wj, wi, p * high);
    }
  }

  /** The rows before j are done. */
  ghost predicate RowsDone(x: seq<nat>, b: seq<nat>, a: seq<nat>, j: nat, k: nat) {
    |x| == |b| == |a| && j <= |x| && IsLimbs(a) && Value(a) + k * Weight(|a|) == Value(x[..j]) * Value(b)
  }

  lemma {:induction false} RowsNext(x: seq<nat>, b: seq<nat>, o: seq<nat>, a: seq<nat>, j: nat, k: nat, carry: nat) returns (m: nat)
    requires RowsDone(x, b, o, j, k) && j < |x| == |a| && IsLimbs(b) && InRow(o, a, x[j], b, j, |a| - j, carry)
    ensures RowsDone(x, b, a, j + 1, m)
  {
    hide Value, Weight;
    var c := RowEnd(o, a, x[j], b, j, carry);
    m := k + c;
    assert x[..j + 1] == x[..j] + [x[j]];
    ValueSnoc(x[..j], x[j]);
    Distribute(Value(x[..j]), Weight(j) * x[j], Value(b));
    Distribute(k, c, Weight(|a|));
  }

  lemma {:induction false} RowsEnd(x: seq<nat>, b: seq<nat>, a: seq<nat>, k: nat)
    requires RowsDone(x, b, a, |x|, k)
    ensures Value(a) == Mod(Value(x) * Value(b), Weight(|x|))
  {
    hide Value, Weight;
    assert x[..|x|] == x;
    ValueBound(a);
    DivUnique(Value(x) * Value(b), Weight(|x|), k, Value(a));
  }

  /** The digits before i have been multiplied by p. */
  ghost predicate Scaling(a: seq<nat>, s: seq<nat>, p: nat, i: nat, carry: nat) {
    |a| == |s| && i <= |a| && carry < BASE && IsLimbs(s) && s[i..] == a[i..] && Value(s[..i]) + Weight(i) * carry == p * Value(a[..i])
  }

  lemma {:induction false} ScaleStart(a: seq<nat>, p: nat)
    requires IsLimbs(a)
    ensures Scaling(a, a, p, 0, 0)
  {
  }

  lemma {:induction false} ScaleDigit(a: seq<nat>, s: seq<nat>, p: nat, i: nat, carry: nat)
    requires Scaling(a, s, p, i, carry) && p < BASE && i < |a|
    ensures var n := carry + p * s[i];
            n < BASE * BASE && Scaling(a, s[i := n % BASE], p, i + 1, n / BASE)
  {
    hide Value, Weight;
    var n := carry + p * s[i];
    RowSum(carry, 0, p, s[i]);
    assert s[i] == s[i..][0] == a[i..][0] == a[i];
    var t := s[i := n % BASE];
    assert t[i + 1..] == s[i..][1..] == a[i..][1..] == a[i + 1..];
    assert t[..i + 1] == s[..i] + [n % BASE] && a[..i + 1] == a[..i] + [a[i]];
    var z := seq(i, _ => 0);
    ValueZeroes(z);
    DivMod(n, BASE);
    RowArithmetic(s[..i], z, a[..i], n % BASE, 0, a[i], p, carry, n / BASE);
    ValueZeroes(z + [0]);
  }

  lemma {:induction false} ScaleEnd(a: seq<nat>, s: seq<nat>, p: nat, carry: nat)
    requires Scaling(a, s, p, |a|, carry)
    ensures Value(s) == Mod(Value(a) * p, Weight(|a|))
  {
    hide Value, Weight;
    assert s[..|s|] == s && a[..|a|] == a;
    ValueBound(s);
    DivUnique(Value(a) * p, Weight(|a|), carry, Value(s));
  }

  // ---------- comparing ----------

  lemma {:induction false} CompareAt(a: seq<nat>, b: seq<nat>, i: nat)
    requires |a| == |b| && i < |a| && IsLimbs(a) && IsLimbs(b) && a[i + 1..] == b[i + 1..]
    ensures a[i] < b[i] ==> Value(a) < Value(b)
  {
    hide Value, Weight;
    if a[i] < b[i] {
      assert a == a[..i] + [a[i]] + a[i + 1..] && b == b[..i] + [b[i]] + b[i + 1..];
      ValueConcat(a[..i] + [a[i]], a[i + 1..]);
      ValueConcat(b[..i] + [b[i]], b[i + 1..]);
      ValueSnoc(a[..i], a[i]);
      ValueSnoc(b[..i], b[i]);
      ValueBound(a[..i]);
      Above(a[i], b[i], Weight(i));
    }
  }

  /** n bits are enough for v, and no fewer are. */
  ghost predicate BitLength(v: nat, n: nat) {
    v < Pow2(n) && (n > 0 ==> Pow2(n - 1) <= v)
  }

  predicate HasBit(x: nat, n: nat) { (x / Pow2(n)) % 2 == 1 }

  lemma {:induction false} TopBit(x: nat, n: nat)
    requires x < Pow2(n + 1)
    ensures HasBit(x, n) <==> x >= Pow2(n)
  {
    if x >= Pow2(n) { DivUnique(x, Pow2(n), 1, x - Pow2(n)); } else { ModSmall(x, Pow2(n)); }
  }

  /** The bits of the highest digit that is not zero decide. */
  lemma {:induction false} LengthAt(a: seq<nat>, pos: nat, n: nat)
    requires IsLimbs(a) && pos < |a| && BitLength(a[pos], n) && n > 0 && forall i :: pos < i < |a| ==> a[i] == 0
    ensures BitLength(Value(a), 32 * pos + n)
  {
    hide Value, Weight, BitLength;
    var x := a[pos];
    assert a == a[..pos] + [x] + a[pos + 1..];
    ValueZeroes(a[pos + 1..]);
    ValueConcat(a[..pos] + [x], a[pos + 1..]);
    ValueSnoc(a[..pos], x);
    ValueBound(a[..pos]);
    LengthBelow(Value(a[..pos]), x, pos, n);
  }

  lemma {:induction false} LengthBelow(low: nat, x: nat, pos: nat, n: nat)
    requires low < Weight(pos) && BitLength(x, n) && n > 0
    ensures BitLength(low + Weight(pos) * x, 32 * pos + n)
  {
    hide Pow2;
    var w := Weight(pos);
    PowAdd(32 * pos, n);
    PowAdd(32 * pos, n - 1);
    Above(x, Pow2(n), w);
    TimesMono(Pow2(n - 1), x, w);
  }

  lemma {:induction false} DigitBits(x: nat)
    ensures x < BASE ==> x < Pow2(32)
    ensures x != 0 && x < Pow2(1) ==> BitLength(x, 1)
  {
    PowBase();
  }

  lemma {:induction false} LengthZero(a: seq<nat>)
    requires forall i :: 0 <= i < |a| ==> a[i] == 0
    ensures BitLength(Value(a), 0)
  {
    ValueZeroes(a);
  }

  lemma {:induction false} LengthBound(a: seq<nat>, n: nat)
    requires IsLimbs(a) && BitLength(Value(a), n)
    ensures n <= 32 * |a|
  {
    hide Value, Pow2;
    ValueBound(a);
    if n > 32 * |a| { PowMono(32 * |a|, n - 1); }
  }

  // ---------- long division ----------

  /** v has been divided by d down to the given shift. */
  ghost predicate Dividing(v: nat, d: nat, q: nat, num: nat, shift: int) {
    shift >= -1 && v == q * d + num && num < d * Pow2(shift + 1) && q % Pow2(shift + 1) == 0
  }

  lemma {:induction false} DivideStart(v: nat, d: nat, numBits: nat, divBits: nat)
    requires BitLength(v, numBits) && BitLength(d, divBits) && 0 < divBits <= numBits
    ensures Dividing(v, d, 0, v, numBits - divBits) && d * Pow2(numBits - divBits) < Pow2(numBits)
  {
    hide Pow2;
    var shift := numBits - divBits;
    PowAdd(divBits - 1, shift + 1);
    TimesMono(Pow2(divBits - 1), d, Pow2(shift + 1));
    ModSmall(0, Pow2(shift + 1));
    PowAdd(divBits, shift);
    Above(d, Pow2(divBits), Pow2(shift));
  }

  lemma {:induction false} DivideStep(v: nat, d: nat, q: nat, num: nat, shift: nat)
    requires Dividing(v, d, q, num, shift)
    ensures num < d * Pow2(shift) ==> Dividing(v, d, q, num, shift - 1)
    ensures num >= d * Pow2(shift) ==> Dividing(v, d, q + Pow2(shift), num - d * Pow2(shift), shift - 1)
  {
    hide Pow2;
    var p := Pow2(shift);
    PowNext(shift);
    Associate(d, 2, p);
    DivMod(q, Pow2(shift + 1));
    var z := q / Pow2(shift + 1);
    Associate(z, 2, p);
    assert q == (2 * z) * p;
    DivUnique(q, p, 2 * z, 0);
    Distribute(2 * z, 1, p);
    DivUnique(q + p, p, 2 * z + 1, 0);
    Distribute(q, p, d);
  }

  lemma {:induction false} DivideEnd(v: nat, d: nat, q: nat, num: nat)
    requires Dividing(v, d, q, num, -1)
    ensures q == v / d && num == v % d
  {
    DivUnique(v, d, q, num);
  }

  /** Half of the shifted divisor. */
  lemma {:induction false} HalfShift(d: nat, shift: nat)
    requires shift > 0
    ensures (d * Pow2(shift)) / Pow2(1) == d * Pow2(shift - 1)
  {
    PowNext(shift - 1);
    Associate(d, 2, Pow2(shift - 1));
    assert Pow2(1) == 2;
  }

  /** A digit of a number without bits up to `shift` has none either. */
  lemma {:induction false} DigitFree(a: seq<nat>, shift: nat)
    requires IsLimbs(a) && shift / 32 < |a| && Value(a) % Pow2(shift + 1) == 0
    ensures a[shift / 32] % Pow2(shift % 32 + 1) == 0
  {
    hide Value, Pow2, Weight;
    var j, t := shift / 32, shift % 32;
    var p, w := Pow2(t + 1), Weight(j);
    PowerOfShift(j, t + 1, shift + 1);
    DivMod(Value(a), Pow2(shift + 1));
    var z := Value(a) / Pow2(shift + 1);
    ValueSplit(a, j);
    Associate(z, p, w);
    DivUnique(Value(a), w, z * p, 0);
    DivUnique(z * p, p, z, 0);
    LowRemainder(a[j..], t + 1);
  }

  /** Setting bit t of a digit without bits up to it. */
  lemma {:induction false} OrBit(x: nat, t: nat)
    requires t < 32 && x < BASE && x % Pow2(t + 1) == 0
    ensures Or(x, Pow2(t)) == x + Pow2(t) < BASE
  {
    hide Pow2;
    var p := Pow2(t + 1);
    DivMod(x, p);
    var y := x / p;
    PowNext(t);
    OrDisjoint(Pow2(t), y, t + 1);
    Halves(t + 1);
    Above(y, Pow2(31 - t), p);
    if y >= Pow2(31 - t) { TimesMono(Pow2(31 - t), y, p); }
  }

  /** Setting bit `shift` of a number without bits up to it. */
  lemma {:induction false} SetBit(a: seq<nat>, shift: nat)
    requires IsLimbs(a) && shift / 32 < |a| && Value(a) % Pow2(shift + 1) == 0
    ensures var j := shift / 32;
            var x := Or(a[j], Pow2(shift % 32));
            x < BASE && Value(a[j := x]) == Value(a) + Pow2(shift)
  {
    hide Value, Pow2, Weight, Or;
    var j, t := shift / 32, shift % 32;
    DigitFree(a, shift);
    OrBit(a[j], t);
    ValueUpdate(a, j, a[j] + Pow2(t));
    Distribute(a[j], Pow2(t), Weight(j));
    PowerOfShift(j, t, shift);
  }

  // ---------- the class ----------

  class BaseUint {
    const pn: array<nat>

    ghost predicate Valid()
      reads pn
    {
      pn.Length >= 2 && IsLimbs(pn[..])
    }

    ghost function Number(): nat
      reads pn
    {
      Value(pn[..])
    }

    ghost function Modulus(): nat { Weight(pn.Length) }

    constructor (width: nat, b: nat)
      requires width >= 2 && b < BASE * BASE
      ensures Valid() && fresh(pn) && pn.Length == width && Number() == b
    {
      pn := new nat[width](_ => 0);
      new;
      Set(b);
    }

    constructor Copy(b: BaseUint)
      requires b.Valid()
      ensures Valid() && fresh(pn) && pn.Length == b.pn.Length && pn[..] == b.pn[..]
    {
      var width := b.pn.Length;
      var limbs := new nat[width](_ => 0);
      for i := 0 to width
        invariant limbs[..i] == b.pn[..i]
      {
        limbs[i] := b.pn[i];
      }
      pn := limbs;
      new;
      assert pn[..] == b.pn[..];
    }

    method Set(b: nat)
      requires pn.Length >= 2 && b < BASE * BASE
      modifies pn
      ensures Valid() && Number() == b
    {
      pn[0], pn[1] := b % BASE, b / BASE;
      for i := 2 to pn.Length
        invariant pn[0] == b % BASE && pn[1] == b / BASE && forall j :: 2 <= j < i ==> pn[j] == 0
      {
        pn[i] := 0;
      }
      LowDigits(pn[..], b);
    }

    method Assign(b: BaseUint)
      requires b.Valid() && pn.Length == b.pn.Length
      modifies pn
      ensures Valid() && pn[..] == old(b.pn[..])
    {
      ghost var b0 := b.pn[..];
      for i := 0 to pn.Length
        invariant forall j :: 0 <= j < i ==> pn[j] == b0[j]
        invariant forall j :: i <= j < pn.Length ==> b.pn[j] == b0[j]
      {
        pn[i] := b.pn[i];
      }
      assert pn[..] == b0;
    }

    /** operator+= */
    method Add(b: BaseUint)
      requires Valid() && b.Valid() && pn.Length == b.pn.Length
      modifies pn
      ensures Valid() && Number() == Mod(old(Number()) + old(b.Number()), Modulus())
    {
      hide Mod, Value, Weight, Adding;
      ghost var a0, b0 := pn[..], b.pn[..];
      var carry: nat := 0;
      AddStart(a0, b0);
      for i := 0 to pn.Length
        invariant Adding(a0, b0, pn[..], i, carry)
        invariant forall j :: i <= j < pn.Length ==> b.pn[j] == b0[j]
      {
        ghost var s := pn[..];
        AddDigit(a0, b0, s, i, carry);
        var n: nat := carry + pn[i] + b.pn[i];
        pn[i] := n % BASE;
        carry := n / BASE;
        assert pn[..] == s[i := pn[i]];
      }
      AddEnd(a0, b0, pn[..], carry);
    }

    /** operator++ */
    method Increment()
      requires Valid()
      modifies pn
      ensures Valid() && Number() == Mod(old(Number()) + 1, Modulus())
    {
      hide Mod, Value, Weight;
      ghost var a0 := pn[..];
      WeightZero();
      var i := 0;
      while i < pn.Length
        invariant Incrementing(a0, pn[..], i)
      {
        ghost var s := pn[..];
        IncrementStep(a0, s, i);
        pn[i] := (pn[i] + 1) % BASE;
        assert pn[..] == s[i := (s[i] + 1) % BASE];
        if pn[i] != 0 { break; }
        i := i + 1;
      }
      Wrapped(a0, pn[..], Value(a0) + 1);
    }

    /** operator-- */
    method Decrement()
      requires Valid()
      modifies pn
      ensures Valid() && Number() == Mod(old(Number()) + Modulus() - 1, Modulus())
    {
      hide Mod, Value, Weight;
      ghost var a0 := pn[..];
      WeightZero();
      var i := 0;
      while i < pn.Length
        invariant Decrementing(a0, pn[..], i)
      {
        ghost var s := pn[..];
        DecrementStep(a0, s, i);
        pn[i] := (pn[i] + BASE - 1) % BASE;
        assert pn[..] == s[i := (s[i] + BASE - 1) % BASE];
        if pn[i] != BASE - 1 { break; }
        i := i + 1;
      }
      Down1(a0, pn[..]);
    }

    /** operator~ */
    method Complement() returns (ret: BaseUint)
      requires Valid()
      ensures fresh(ret) && fresh(ret.pn) && ret.Valid() && ret.pn.Length == pn.Length
      ensures ret.Number() == Modulus() - 1 - Number()
    {
      hide Mod, Value, Weight;
      ret := new BaseUint(pn.Length, 0);
      for i := 0 to pn.Length
        invariant forall j :: 0 <= j < i ==> ret.pn[j] == BASE - 1 - pn[j]
      {
        ret.pn[i] := BASE - 1 - pn[i];
      }
      ComplementValue(pn[..], ret.pn[..]);
    }

    /** operator- */
    method Negate() returns (ret: BaseUint)
      requires Valid()
      ensures fresh(ret) && fresh(ret.pn) && ret.Valid() && ret.pn.Length == pn.Length
      ensures Number() < Modulus() && ret.Number() == Mod(Modulus() - Number(), Modulus())
    {
      hide Mod, Value, Weight;
      ValueBound(pn[..]);
      ret := Complement();
      ret.Increment();
    }

    /** operator-= */
    method Subtract(b: BaseUint)
      requires Valid() && b.Valid() && pn.Length == b.pn.Length
      modifies pn
      ensures Valid() && old(b.Number()) < Modulus() && Number() == Mod(old(Number()) + Modulus() - old(b.Number()), Modulus())
      ensures old(b.Number()) <= old(Number()) ==> Number() == old(Number()) - old(b.Number())
    {
      hide Mod, Value, Weight;
      ValueBound(pn[..]);
      ValueBound(b.pn[..]);
      AddNegated(Value(pn[..]), Value(b.pn[..]), Weight(pn.Length));
      var negated := b.Negate();
      Add(negated);
    }

    /** operator<<= */
    method ShiftLeft(shift: nat)
      requires Valid()
      modifies pn
      ensures Valid() && Number() == Mod(old(Number()) * Pow2(shift), Modulus())
    {
      hide Mod, Value, Weight, Pow2, Hi, Lo, LeftCell;
      var a := new BaseUint.Copy(this);
      ghost var a0 := pn[..];
      for i := 0 to pn.Length
        invariant a.pn[..] == a0 && forall j :: 0 <= j < i ==> pn[j] == 0
      {
        pn[i] := 0;
      }
      var k, t := shift / 32, shift % 32;
      LeftEmpty(a0, k, t, pn[..]);
      for i := 0 to pn.Length
        invariant a.pn[..] == a0 && pn[..] == LeftCells(a0, i, k, t)
      {
        ghost var s := pn[..];
        assert a.pn[i] == a0[i];
        LeftStep(a0, i, k, t, s);
        NoBits(a0[i]);
        if i + k + 1 < pn.Length && t != 0 { pn[i + k + 1] := Or(pn[i + k + 1], Hi(a.pn[i], t)); }
        if i + k < pn.Length { pn[i + k] := Or(pn[i + k], Lo(a.pn[i], t)); }
        LeftTop(a0, i, k, t);
        LeftNext(a0, i, k, t, s, pn[..]);
      }
      LeftDone(a0, shift);
    }

    /** operator>>= */
    method ShiftRight(shift: nat)
      requires Valid()
      modifies pn
      ensures Valid() && Number() == old(Number()) / Pow2(shift)
    {
      hide Mod, Value, Weight, Pow2, Over, Down, RightCell;
      var a := new BaseUint.Copy(this);
      ghost var a0 := pn[..];
      for i := 0 to pn.Length
        invariant a.pn[..] == a0 && forall j :: 0 <= j < i ==> pn[j] == 0
      {
        pn[i] := 0;
      }
      var k, t := shift / 32, shift % 32;
      RightEmpty(a0, k, t, pn[..]);
      for i := 0 to pn.Length
        invariant a.pn[..] == a0 && pn[..] == RightCells(a0, i, k, t)
      {
        ghost var s := pn[..];
        assert a.pn[i] == a0[i];
        RightStep(a0, i, k, t, s);
        NoBits(a0[i]);
        if i - k - 1 >= 0 && t != 0 { pn[i - k - 1] := Or(pn[i - k - 1], Over(a.pn[i], t)); }
        if i - k >= 0 { pn[i - k] := Or(pn[i - k], Down(a.pn[i], t)); }
        RightNext(a0, i, k, t, s, pn[..]);
      }
      RightDone(a0, shift);
    }

    /** operator*= by one digit */
    method Scale(b32: nat)
      requires Valid() && b32 < BASE
      modifies pn
      ensures Valid() && Number() == Mod(old(Number()) * b32, Modulus())
    {
      hide Mod, Value, Weight;
      ghost var a0 := pn[..];
      var carry: nat := 0;
      ScaleStart(a0, b32);
      for i := 0 to pn.Length
        invariant Scaling(a0, pn[..], b32, i, carry)
      {
        ghost var s := pn[..];
        ScaleDigit(a0, s, b32, i, carry);
        var n: nat := carry + b32 * pn[i];
        pn[i] := n % BASE;
        carry := n / BASE;
        assert pn[..] == s[i := pn[i]];
      }
      ScaleEnd(a0, pn[..], b32, carry);
    }

    /** operator*= */
    method Multiply(b: BaseUint)
      requires Valid() && b.Valid() && pn.Length == b.pn.Length
      modifies pn
      ensures Valid() && Number() == Mod(old(Number()) * old(b.Number()), Modulus())
    {
      hide Mod, Value, Weight, RowsDone, InRow;
      ghost var x0, b0 := pn[..], b.pn[..];
      var a := new BaseUint(pn.Length, 0);
      ghost var k: nat := 0;
      StartRows(x0, b0, a.pn[..]);
      for j := 0 to pn.Length
        invariant pn[..] == x0 && b.pn[..] == b0 && RowsDone(x0, b0, a.pn[..], j, k) && IsLimbs(a.pn[..])
      {
        ghost var o := a.pn[..];
        assert pn[j] == x0[j];
        RowStart(o, x0[j], b0, j);
        var carry: nat := 0;
        for i := 0 to pn.Length - j
          invariant pn[..] == x0 && b.pn[..] == b0 && InRow(o, a.pn[..], x0[j], b0, j, i, carry)
        {
          ghost var s := a.pn[..];
          RowDigit(o, s, x0[j], b0, j, i, carry);
          assert b.pn[i] == b0[i];
          var n: nat := carry + a.pn[i + j] + pn[j] * b.pn[i];
          a.pn[i + j] := n % BASE;
          carry := n / BASE;
          assert a.pn[..] == s[i + j := a.pn[i + j]];
        }
        k := RowsNext(x0, b0, o, a.pn[..], j, k, carry);
        RowsLimbs(x0, b0, a.pn[..], j + 1, k);
      }
      RowsEnd(x0, b0, a.pn[..], k);
      Assign(a);
    }

    /** Negative, zero or positive as the number is lower, equal or higher. */
    method CompareTo(b: BaseUint) returns (r: int)
      requires Valid() && b.Valid() && pn.Length == b.pn.Length
      ensures (r < 0 <==> Number() < b.Number()) && (r > 0 <==> Number() > b.Number())
    {
      hide Value;
      var i := pn.Length;
      while i > 0
        invariant 0 <= i <= pn.Length && pn[..][i..] == b.pn[..][i..]
      {
        i := i - 1;
        CompareAt(pn[..], b.pn[..], i);
        CompareAt(b.pn[..], pn[..], i);
        if pn[i] < b.pn[i] { return -1; }
        if pn[i] > b.pn[i] { return 1; }
        assert pn[..][i..] == [pn[i]] + pn[..][i + 1..] && b.pn[..][i..] == [b.pn[i]] + b.pn[..][i + 1..];
      }
      assert pn[..] == pn[..][0..] && b.pn[..] == b.pn[..][0..];
      r := 0;
    }

    method EqualTo(b: nat) returns (r: bool)
      requires Valid() && b < BASE * BASE
      ensures r <==> Number() == b
    {
      hide Value;
      var i := pn.Length;
      while i > 2
        invariant 2 <= i <= pn.Length && forall j :: i <= j < pn.Length ==> pn[j] == 0
      {
        i := i - 1;
        if pn[i] != 0 {
          LowOnly(pn[..], b);
          return false;
        }
      }
      LowOnly(pn[..], b);
      r := pn[1] == b / BASE && pn[0] == b % BASE;
    }

    method GetLow64() returns (r: nat)
      requires Valid()
      ensures r == Mod(Number(), BASE * BASE)
    {
      hide Value, Pow2;
      LowOr(pn[0], pn[1]);
      LowTwo(pn[..]);
      r := Or(pn[0], pn[1] * BASE);
    }

    method Bits() returns (r: nat)
      requires Valid()
      ensures BitLength(Number(), r)
    {
      hide Value, Pow2, BitLength, HasBit;
      var pos := pn.Length;
      while pos > 0
        invariant 0 <= pos <= pn.Length && forall i :: pos <= i < pn.Length ==> pn[i] == 0
      {
        pos := pos - 1;
        if pn[pos] != 0 {
          var n := DigitLength(pn[pos]);
          LengthAt(pn[..], pos, n);
          return 32 * pos + n;
        }
      }
      LengthZero(pn[..]);
      r := 0;
    }

    /** One round of the division: the invariant goes from `shift` down to the next lower bit. */
    method TakeBit(num: BaseUint, div: BaseUint, shift: nat, ghost v: nat, ghost d: nat)
      requires Valid() && num.Valid() && div.Valid() && pn.Length == num.pn.Length == div.pn.Length
      requires pn != num.pn && pn != div.pn && num.pn != div.pn && shift < 32 * pn.Length
      requires Dividing(v, d, Number(), num.Number(), shift) && div.Number() == d * Pow2(shift)
      modifies pn, num.pn
      ensures Valid() && num.Valid() && Dividing(v, d, Number(), num.Number(), shift - 1)
    {
      hide Mod, Value, Weight, Pow2, Dividing;
      DivideStep(v, d, Value(pn[..]), Value(num.pn[..]), shift);
      NoBitsYet(v, d, Value(pn[..]), Value(num.pn[..]), shift);
      var c := num.CompareTo(div);
      if c >= 0 {
        num.Subtract(div);
        ghost var s := pn[..];
        SetBit(s, shift);
        pn[shift / 32] := Or(pn[shift / 32], Pow2(shift % 32));
        assert pn[..] == s[shift / 32 := pn[shift / 32]];
      }
    }

    /** operator/=; false on division by zero. */
    method Divide(b: BaseUint) returns (ok: bool)
      requires Valid() && b.Valid() && pn.Length == b.pn.Length
      modifies pn
      ensures Valid() && (ok <==> old(b.Number()) != 0)
      ensures Number() == if ok then old(Number()) / old(b.Number()) else 0
    {
      hide Mod, Value, Weight, Pow2, BitLength, Dividing;
      ghost var v, d := Value(pn[..]), Value(b.pn[..]);
      ValueBound(pn[..]);
      ValueBound(b.pn[..]);
      var div := new BaseUint.Copy(b);
      var num := new BaseUint.Copy(this);
      Set(0);
      var numBits := num.Bits();
      var divBits := div.Bits();
      LengthsCompare(v, d, numBits, divBits);
      if divBits == 0 { return false; }
      if divBits > numBits { return true; }
      var shift := numBits - divBits;
      LengthBound(num.pn[..], numBits);
      DivideStart(v, d, numBits, divBits);
      FitsModulus(d * Pow2(shift), numBits, pn.Length);
      div.ShiftLeft(shift);
      while shift >= 0
        invariant Valid() && num.Valid() && div.Valid() && -1 <= shift < 32 * pn.Length
        invariant Dividing(v, d, Value(pn[..]), Value(num.pn[..]), shift)
        invariant shift >= 0 ==> Value(div.pn[..]) == d * Pow2(shift)
      {
        TakeBit(num, div, shift, v, d);
        if shift > 0 { HalfShift(d, shift); }
        div.ShiftRight(1);
        shift := shift - 1;
      }
      DivideEnd(v, d, Value(pn[..]), Value(num.pn[..]));
      ok := true;
    }
  }

  /** Bits of one digit, looked for from the top. */
  method DigitLength(x: nat) returns (n: nat)
    requires 0 < x < BASE
    ensures BitLength(x, n) && n > 0
  {
    hide Pow2, HasBit;
    DigitBits(x);
    var nbits := 31;
    while nbits > 0
      invariant 0 <= nbits && x < Pow2(nbits + 1)
    {
      TopBit(x, nbits);
      if HasBit(x, nbits) { return nbits + 1; }
      nbits := nbits - 1;
    }
    n := 1;
  }

  lemma {:induction false} LowDigits(s: seq<nat>, b: nat)
    requires |s| >= 2 && b < BASE * BASE && s[0] == b % BASE && s[1] == b / BASE && forall i :: 2 <= i < |s| ==> s[i] == 0
    ensures IsLimbs(s) && Value(s) == b
  {
    ValueZeroes(s[2..]);
    assert s[1..][1..] == s[2..];
    assert Value(s[1..]) == s[1];
    DivMod(b, BASE);
  }

  lemma {:induction false} Down1(a: seq<nat>, s: seq<nat>)
    requires IsLimbs(a) && IsLimbs(s) && |s| == |a| && (Value(s) + 1 == Value(a) || Value(s) + 1 == Value(a) + Weight(|a|))
    ensures Value(s) == Mod(Value(a) + Weight(|a|) - 1, Weight(|a|))
  {
    hide Value, Weight;
    ValueBound(s);
    var m := Weight(|a|);
    if Value(s) + 1 == Value(a) { DivUnique(Value(a) + m - 1, m, 1, Value(s)); } else { ModSmall(Value(s), m); }
  }

  lemma {:induction false} LeftEmpty(a: seq<nat>, k: nat, t: nat, s: seq<nat>)
    requires t < 32 && |s| == |a| && forall i :: 0 <= i < |s| ==> s[i] == 0
    ensures s == LeftCells(a, 0, k, t)
  {
  }

  lemma {:induction false} LeftTop(a: seq<nat>, i: nat, k: nat, t: nat)
    requires t < 32 && i < |a|
    ensures i + k + 1 < |a| ==> LeftCells(a, i, k, t)[i + k + 1] == 0
  {
  }

  lemma {:induction false} RightEmpty(a: seq<nat>, k: nat, t: nat, s: seq<nat>)
    requires t < 32 && |s| == |a| && forall i :: 0 <= i < |s| ==> s[i] == 0
    ensures s == RightCells(a, 0, k, t)
  {
  }

  lemma {:induction false} StartRows(x: seq<nat>, b: seq<nat>, a: seq<nat>)
    requires |x| == |b| == |a| && IsLimbs(a) && Value(a) == 0
    ensures RowsDone(x, b, a, 0, 0)
  {
    assert x[..0] == [];
  }

  lemma {:induction false} RowsLimbs(x: seq<nat>, b: seq<nat>, a: seq<nat>, j: nat, k: nat)
    requires RowsDone(x, b, a, j, k)
    ensures IsLimbs(a)
  {
  }

  /** What the lengths say about the numbers. */
  lemma {:induction false} LengthsCompare(v: nat, d: nat, numBits: nat, divBits: nat)
    requires BitLength(v, numBits) && BitLength(d, divBits)
    ensures divBits == 0 <==> d == 0
    ensures divBits > numBits ==> d > 0 && v / d == 0
  {
    hide Pow2;
    PowZero();
    if divBits > numBits {
      PowMono(numBits, divBits - 1);
      ModSmall(v, d);
    }
  }

  lemma {:induction false} FitsModulus(n: nat, bits: nat, width: nat)
    requires n < Pow2(bits) && bits <= 32 * width
    ensures Mod(n, Weight(width)) == n
  {
    hide Pow2;
    PowMono(bits, 32 * width);
    ModSmall(n, Weight(width));
  }

  lemma {:induction false} NoBitsYet(v: nat, d: nat, q: nat, num: nat, shift: nat)
    requires Dividing(v, d, q, num, shift)
    ensures q % Pow2(shift + 1) == 0
  {
  }

  /** The two lowest digits are the number modulo 2^64. */
  lemma {:induction false} LowTwo(s: seq<nat>)
    requires IsLimbs(s) && |s| >= 2
    ensures s[0] + s[1] * BASE == Mod(Value(s), BASE * BASE)
  {
    hide Weight;
    ValueSplit(s, 2);
    WeightZero();
    WeightNext(1);
    var low := s[..2];
    assert low == [s[0]] + [s[1]];
    ValueConcat([s[0]], [s[1]]);
    ValueOne(s[0]);
    ValueOne(s[1]);
  }

  lemma {:induction false} LowOr(x: nat, y: nat)
    requires x < BASE
    ensures Or(x, y * BASE) == x + y * BASE
  {
    hide Pow2;
    PowBase();
    OrDisjoint(x, y, 32);
  }

  /** A number of 64 bits is that of its two lowest digits, and has no others. */
  lemma {:induction false} LowOnly(s: seq<nat>, b: nat)
    requires IsLimbs(s) && |s| >= 2 && b < BASE * BASE
    ensures Value(s) == b <==> s[1] == b / BASE && s[0] == b % BASE && forall j :: 2 <= j < |s| ==> s[j] == 0
  {
    if s[1] == b / BASE && s[0] == b % BASE && forall j :: 2 <= j < |s| ==> s[j] == 0 {
      LowDigits(s, b);
    } else if Value(s) == b {
      LowTwo(s);
      ModSmall(b, BASE * BASE);
      DivUnique(b, BASE, s[1], s[0]);
      NoHighDigits(s);
    }
  }

  lemma {:induction false} NoHighDigits(s: seq<nat>)
    requires IsLimbs(s) && |s| >= 2 && Value(s) < BASE * BASE
    ensures forall j :: 2 <= j < |s| ==> s[j] == 0
  {
    hide Value, Weight;
    forall j | 2 <= j < |s| ensures s[j] == 0 {
      ValueUpdate(s, j, 0);
      if s[j] > 0 {
        HighWeight(j);
        TimesMono(1, s[j], Weight(j));
      }
    }
  }

  lemma {:induction false} HighWeight(j: nat)
    requires j >= 2
    ensures Weight(j) >= BASE * BASE
  {
    hide Pow2;
    PowMono(64, 32 * j);
    PowAdd(32, 32);
    PowBase();
  }
}
