/** Shifting a list of 32-bit digits, a whole number of digits and a few bits at once. */
module Shifts {
  import opened Arithmetic
  import opened Powers
  import opened Limbs

  /** The parts of x << t that stay in the digit, and that go to the next. */
  function Lo(x: nat, t: nat): nat { (x * Pow2(t)) % BASE }

  function Hi(x: nat, t: nat): nat
    requires t < 32
  {
    DivMod(x, Pow2(32 - t));
    x / Pow2(32 - t)
  }

  /** The parts of x >> t that stay in the digit, and that go to the one before. */
  function Down(x: nat, t: nat): nat {
    DivMod(x, Pow2(t));
    x / Pow2(t)
  }

  function Over(x: nat, t: nat): nat
    requires t < 32
  {
    (x * Pow2(32 - t)) % BASE
  }

  lemma {:induction false} Halves(t: nat)
    requires t <= 32
    ensures Pow2(32 - t) * Pow2(t) == BASE == Pow2(t) * Pow2(32 - t)
  {
    hide Pow2;
    PowAdd(32 - t, t);
    PowBase();
  }

  /** x * q splits at p * q where x splits at p. */
  lemma {:induction false} ScaledDivMod(x: nat, p: nat, q: nat)
    requires p > 0 && q > 0
    ensures x * q == (x % p) * q + (p * q) * (x / p) && (x % p) * q < p * q
    ensures (x * q) % (p * q) == (x % p) * q
  {
    var h, l := x / p, x % p;
    DivMod(x, p);
    Distribute(h * p, l, q);
    Associate(h, p, q);
    Above(l, p, q);
    DivUnique(x * q, p * q, h, l * q);
  }

  lemma {:induction false} LeftParts(x: nat, t: nat)
    requires t < 32 && x < BASE
    ensures x * Pow2(t) == Lo(x, t) + BASE * Hi(x, t)
    ensures Lo(x, t) == (x % Pow2(32 - t)) * Pow2(t) <= BASE - Pow2(t) && Hi(x, t) < Pow2(t)
  {
    hide Pow2;
    var p, q := Pow2(32 - t), Pow2(t);
    Halves(t);
    ScaledDivMod(x, p, q);
    DivMod(x, p);
    Above(x % p, p, q);
    Above(q - 1, x / p, p);
    Distribute(q - 1, 1, p);
  }

  lemma {:induction false} RightParts(x: nat, t: nat)
    requires t < 32 && x < BASE
    ensures Over(x, t) == (x % Pow2(t)) * Pow2(32 - t) && Down(x, t) < Pow2(32 - t)
    ensures Over(x, t) <= BASE - Pow2(32 - t)
  {
    hide Pow2;
    var p, q := Pow2(32 - t), Pow2(t);
    Halves(t);
    ScaledDivMod(x, q, p);
    DivMod(x, q);
    Above(x % q, q, p);
    Above(p - 1, x / q, q);
    Distribute(p - 1, 1, q);
  }

  // ---------- to the left ----------

  ghost function LeftLimbs(a: seq<nat>, t: nat, carry: nat): (r: seq<nat>)
    requires t < 32
    ensures |r| == |a| + 1
  {
    if a == [] then [carry] else [Lo(a[0], t) + carry] + LeftLimbs(a[1..], t, Hi(a[0], t))
  }

  lemma {:induction false} LeftAt(a: seq<nat>, t: nat, carry: nat, j: nat)
    requires t < 32 && j <= |a|
    ensures LeftLimbs(a, t, carry)[j] == (if j < |a| then Lo(a[j], t) else 0) + (if j > 0 then Hi(a[j - 1], t) else carry)
  {
    hide Lo, Hi;
    if a != [] && j > 0 { LeftAt(a[1..], t, Hi(a[0], t), j - 1); }
  }

  lemma {:induction false} LeftValue(a: seq<nat>, t: nat, carry: nat)
    requires t < 32 && IsLimbs(a) && carry < Pow2(t)
    ensures Value(LeftLimbs(a, t, carry)) == Value(a) * Pow2(t) + carry && IsLimbs(LeftLimbs(a, t, carry))
  {
    hide Lo, Hi, Pow2;
    Halves(t);
    TimesMono(1, Pow2(32 - t), Pow2(t));
    if a == [] {
      ValueOne(carry);
    } else {
      LeftParts(a[0], t);
      LeftValue(a[1..], t, Hi(a[0], t));
      Distribute(a[0], BASE * Value(a[1..]), Pow2(t));
      Associate(BASE, Value(a[1..]), Pow2(t));
    }
  }

  /** Digit m when i digits have been shifted. */
  ghost function LeftCell(a: seq<nat>, i: nat, k: nat, t: nat, m: nat): nat
    requires t < 32 && i <= |a|
  {
    (if k <= m < k + i then Lo(a[m - k], t) else 0) + (if k < m <= k + i then Hi(a[m - k - 1], t) else 0)
  }

  ghost function LeftCells(a: seq<nat>, i: nat, k: nat, t: nat): (r: seq<nat>)
    requires t < 32 && i <= |a|
    ensures |r| == |a| && forall m :: 0 <= m < |a| ==> r[m] == LeftCell(a, i, k, t, m)
  {
    seq(|a|, m requires 0 <= m < |a| => LeftCell(a, i, k, t, m))
  }

  lemma {:induction false} LeftDone(a: seq<nat>, shift: nat)
    requires IsLimbs(a)
    ensures var r := LeftCells(a, |a|, shift / 32, shift % 32);
            IsLimbs(r) && Value(r) == Mod(Value(a) * Pow2(shift), Weight(|a|))
  {
    hide Lo, Hi, Pow2, Value, Weight, LeftLimbs;
    var k, t, w := shift / 32, shift % 32, |a|;
    var zeroes := seq(k, _ => 0);
    var shifted := LeftLimbs(a, t, 0);
    var full := zeroes + shifted;
    PowerOfShift(k, t, shift);
    LeftValue(a, t, 0);
    ValueZeroes(zeroes);
    ValueConcat(zeroes, shifted);
    Associate(Weight(k), Value(a), Pow2(t));
    ValueSplit(full, w);
    forall m | 0 <= m < w ensures full[..w][m] == LeftCell(a, w, k, t, m) {
      if m >= k { LeftAt(a, t, 0, m - k); }
    }
    assert full[..w] == LeftCells(a, w, k, t);
  }

  lemma {:induction false} PowerOfShift(k: nat, t: nat, shift: nat)
    requires shift == 32 * k + t
    ensures Pow2(shift) == Weight(k) * Pow2(t)
  {
    hide Pow2;
    PowAdd(32 * k, t);
  }

  /** Or-ing the parts of digit i into the digits above. */
  lemma {:induction false} LeftStep(a: seq<nat>, i: nat, k: nat, t: nat, r: seq<nat>)
    requires t < 32 && i < |a| && IsLimbs(a) && r == LeftCells(a, i, k, t)
    ensures i + k + 1 < |a| ==> Or(r[i + k + 1], Hi(a[i], t)) == Hi(a[i], t)
    ensures i + k < |a| ==> Or(r[i + k], Lo(a[i], t)) == r[i + k] + Lo(a[i], t)
  {
    hide Lo, Hi, Pow2;
    LeftParts(a[i], t);
    OrZero(Hi(a[i], t));
    if i + k < |a| {
      if i > 0 { LeftParts(a[i - 1], t); }
      OrDisjoint(r[i + k], a[i] % Pow2(32 - t), t);
    }
  }

  lemma {:induction false} LeftNext(a: seq<nat>, i: nat, k: nat, t: nat, r: seq<nat>, s: seq<nat>)
    requires t < 32 && i < |a| && IsLimbs(a) && r == LeftCells(a, i, k, t) && |s| == |r|
    requires i + k + 1 < |a| ==> s[i + k + 1] == Hi(a[i], t)
    requires i + k < |a| ==> s[i + k] == r[i + k] + Lo(a[i], t)
    requires forall m :: 0 <= m < |a| && m != i + k && m != i + k + 1 ==> s[m] == r[m]
    ensures s == LeftCells(a, i + 1, k, t)
  {
    hide Lo, Hi;
    forall m | 0 <= m < |a| ensures s[m] == LeftCell(a, i + 1, k, t, m) { }
  }

  // ---------- to the right ----------

  ghost function RightLimbs(a: seq<nat>, t: nat): (r: seq<nat>)
    requires t < 32
    ensures |r| == |a|
  {
    if a == [] then [] else [Down(a[0], t) + (if |a| > 1 then Over(a[1], t) else 0)] + RightLimbs(a[1..], t)
  }

  lemma {:induction false} RightAt(a: seq<nat>, t: nat, j: nat)
    requires t < 32 && j < |a|
    ensures RightLimbs(a, t)[j] == Down(a[j], t) + (if j + 1 < |a| then Over(a[j + 1], t) else 0)
  {
    hide Down, Over;
    if j > 0 { RightAt(a[1..], t, j - 1); }
  }

  /** The remainder of a number by a power below the base is that of its lowest digit. */
  lemma {:induction false} LowRemainder(a: seq<nat>, t: nat)
    requires t <= 32 && a != []
    ensures Value(a) % Pow2(t) == a[0] % Pow2(t)
  {
    hide Pow2;
    Halves(t);
    var v := Value(a[1..]);
    Associate(Pow2(32 - t), Pow2(t), v);
    Associate(v, Pow2(32 - t), Pow2(t));
    assert BASE * v == (v * Pow2(32 - t)) * Pow2(t);
    ModPlus(a[0], v * Pow2(32 - t), Pow2(t));
  }

  lemma {:induction false} RightValue(a: seq<nat>, t: nat)
    requires t < 32 && IsLimbs(a)
    ensures Value(RightLimbs(a, t)) == Value(a) / Pow2(t) && IsLimbs(RightLimbs(a, t))
  {
    hide Down, Over, Pow2;
    if a == [] {
      ModSmall(0, Pow2(t));
    } else {
      RightValue(a[1..], t);
      RightParts(a[0], t);
      var v := Value(a[1..]);
      if |a| > 1 {
        RightParts(a[1], t);
        LowRemainder(a[1..], t);
      }
      assert (if |a| > 1 then Over(a[1], t) else 0) == (v % Pow2(t)) * Pow2(32 - t) by {
        if |a| == 1 { ModSmall(0, Pow2(t)); }
      }
      DownSplit(a[0], v, t);
    }
  }

  /** Shifting two digits as one number. */
  lemma {:induction false} DownSplit(x: nat, v: nat, t: nat)
    requires t < 32
    ensures (x + BASE * v) / Pow2(t) == Down(x, t) + (v % Pow2(t)) * Pow2(32 - t) + BASE * (v / Pow2(t))
  {
    hide Pow2;
    var p, q := Pow2(32 - t), Pow2(t);
    Halves(t);
    DivMod(x, q);
    ScaledDivMod(v, q, p);
    Associate(v, p, q);
    Distribute(x / q, v * p, q);
    DivUnique(x + BASE * v, q, x / q + v * p, x % q);
  }

  ghost function RightCell(a: seq<nat>, i: nat, k: nat, t: nat, m: nat): nat
    requires t < 32 && i <= |a|
  {
    (if m + k < i then Down(a[m + k], t) else 0) + (if m + k + 1 < i then Over(a[m + k + 1], t) else 0)
  }

  ghost function RightCells(a: seq<nat>, i: nat, k: nat, t: nat): (r: seq<nat>)
    requires t < 32 && i <= |a|
    ensures |r| == |a| && forall m :: 0 <= m < |a| ==> r[m] == RightCell(a, i, k, t, m)
  {
    seq(|a|, m requires 0 <= m < |a| => RightCell(a, i, k, t, m))
  }

  lemma {:induction false} DivDiv(n: nat, a: nat, b: nat)
    requires a > 0 && b > 0
    ensures a * b > 0 && (n / a) / b == n / (a * b)
  {
    var q, r := n / a, n % a;
    DivMod(n, a);
    DivMod(q, b);
    Associate(q / b, b, a);
    Distribute((q / b) * b, q % b, a);
    Above(q % b, b, a);
    DivUnique(n, a * b, q / b, (q % b) * a + r);
  }

  lemma {:induction false} RightDone(a: seq<nat>, shift: nat)
    requires IsLimbs(a)
    ensures var r := RightCells(a, |a|, shift / 32, shift % 32);
            IsLimbs(r) && Value(r) == Value(a) / Pow2(shift)
  {
    hide Down, Over, Pow2, Value, Weight, RightLimbs;
    var k, t, w := shift / 32, shift % 32, |a|;
    var r := RightCells(a, w, k, t);
    PowerOfShift(k, t, shift);
    if k >= w {
      ValueZeroes(r);
      ValueBound(a);
      TooFar(w, k, shift);
      ModSmall(Value(a), Pow2(shift));
    } else {
      var high := a[k..];
      RightValue(high, t);
      ValueSplit(a, k);
      DivDiv(Value(a), Weight(k), Pow2(t));
      var zeroes := seq(k, _ => 0);
      forall m | 0 <= m < w ensures r[m] == (RightLimbs(high, t) + zeroes)[m] {
        if m < w - k { RightAt(high, t, m); }
      }
      assert r == RightLimbs(high, t) + zeroes;
      ValueConcat(RightLimbs(high, t), zeroes);
      ValueZeroes(zeroes);
    }
  }

  lemma {:induction false} TooFar(w: nat, k: nat, shift: nat)
    requires k >= w && shift >= 32 * k
    ensures Weight(w) <= Pow2(shift)
  {
    hide Pow2;
    PowMono(32 * w, shift);
  }

  /** Or-ing the parts of digit i into the digits below. */
  lemma {:induction false} RightStep(a: seq<nat>, i: nat, k: nat, t: nat, r: seq<nat>)
    requires t < 32 && i < |a| && IsLimbs(a) && r == RightCells(a, i, k, t)
    ensures i - k - 1 >= 0 ==> Or(r[i - k - 1], Over(a[i], t)) == r[i - k - 1] + Over(a[i], t)
    ensures i - k >= 0 ==> Or(r[i - k], Down(a[i], t)) == Down(a[i], t)
  {
    hide Down, Over, Pow2;
    RightParts(a[i], t);
    OrZero(Down(a[i], t));
    if i - k - 1 >= 0 {
      RightParts(a[i - 1], t);
      OrDisjoint(r[i - k - 1], a[i] % Pow2(t), 32 - t);
    }
  }

  lemma {:induction false} RightNext(a: seq<nat>, i: nat, k: nat, t: nat, r: seq<nat>, s: seq<nat>)
    requires t < 32 && i < |a| && IsLimbs(a) && r == RightCells(a, i, k, t) && |s| == |r|
    requires i - k - 1 >= 0 ==> s[i - k - 1] == r[i - k - 1] + Over(a[i], t)
    requires i - k >= 0 ==> s[i - k] == Down(a[i], t)
    requires forall m :: 0 <= m < |a| && m != i - k && m != i - k - 1 ==> s[m] == r[m]
    ensures s == RightCells(a, i + 1, k, t)
  {
    hide Down, Over;
    forall m | 0 <= m < |a| ensures s[m] == RightCell(a, i + 1, k, t, m) { }
  }

  /** Without a bit shift nothing goes to the neighbour. */
  lemma {:induction false} NoBits(x: nat)
    requires x < BASE
    ensures Hi(x, 0) == 0 && Over(x, 0) == 0
  {
    hide Pow2;
    LeftParts(x, 0);
    RightParts(x, 0);
    PowZero();
    ModSmall(x, BASE);
  }
}
